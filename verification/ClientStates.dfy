/** Client connection states and their legal transitions. */
module ClientStates {
  datatype ClientState =
    | Created | Initializing | Initialized | Connecting | Connected
    | Disconnected | Reconnecting | Stopping | Stopped | Failed

  function Successors(s: ClientState): set<ClientState> {
    match s
    case Created => {Initializing}
    case Initializing => {Initialized, Failed}
    case Initialized => {Connecting, Disconnected}
    case Connecting => {Connected, Failed}
    case Connected => {Disconnected, Reconnecting, Stopping}
    case Disconnected => {Connecting, Disconnected, Reconnecting, Stopping}
    case Reconnecting => {Connected, Disconnected, Failed, Connecting}
    case Stopping => {Stopped}
    case Stopped => {}
    case Failed => {Initializing, Connecting, Reconnecting, Disconnected}
  }
}
