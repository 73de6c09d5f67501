/** What the linter accepts and what it reports, in terms of the lines of the script alone. */
module RegaScriptsChecks {
  import opened Basics
  import opened Strings
  import opened RegaScripts
  import opened RegaScriptsProofs

  // ------------------------------------------------------------ declarations

  /** `line` is `!# name:` followed by something; the declared name is that without outer spaces. */
  ghost predicate DeclaresName(line: string, name: string) {
    exists rest: string :: rest != "" && line == "!# name:" + rest && name == Strip(rest)
  }

  /** `line` is `!# param:`, any spaces, and the quoted parameter. */
  ghost predicate DeclaresParam(line: string, p: string) {
    IsIdent(p) && exists spaces: string :: AllSpace(spaces) && line == "!# param:" + spaces + Quoted(p)
  }

  lemma NameMatchIs(line: string, name: string)
    ensures NameMatch(line) == Some(name) <==> DeclaresName(line, name)
  {
    if NameMatch(line) == Some(name) {
      assert line == "!# name:" + line[8..];
    }
    if DeclaresName(line, name) {
      var rest :| rest != "" && line == "!# name:" + rest && name == Strip(rest);
      assert line[8..] == rest;
    }
  }

  lemma {:induction false} LStripSpaces(spaces: string, rest: string)
    requires AllSpace(spaces) && (rest == "" || !IsSpace(rest[0]))
    ensures LStrip(spaces + rest) == rest
  {
    if spaces == "" {
      assert spaces + rest == rest;
    } else {
      assert (spaces + rest)[1..] == spaces[1..] + rest;
      LStripSpaces(spaces[1..], rest);
    }
  }

  lemma Associate(a: string, b: string, c: string)
    ensures a + b + c == a + (b + c)
  {
  }

  lemma MatchedIsDeclared(line: string, p: string)
    requires ParamMatch(line) == Some(p)
    ensures DeclaresParam(line, p)
  {
    var r := line[9..];
    var k := LStripParts(r);
    assert line == "!# param:" + r && r == r[..k] + r[k..];
    Associate("!# param:", r[..k], Quoted(p));
  }

  lemma DeclaredIsMatched(line: string, p: string)
    requires DeclaresParam(line, p)
    ensures ParamMatch(line) == Some(p) && NameMatch(line).None?
  {
    var spaces :| AllSpace(spaces) && line == "!# param:" + spaces + Quoted(p);
    assert line[9..] == spaces + Quoted(p);
    LStripSpaces(spaces, Quoted(p));
    assert Quoted(p)[3..|Quoted(p)| - 3] == p;
    assert line[3] == 'p' && NAME_PREFIX[3] == 'n';
  }

  ghost predicate IsNameLine(line: string) { exists name :: DeclaresName(line, name) }

  ghost predicate IsParamLine(line: string) { exists p :: DeclaresParam(line, p) }

  lemma LinesAreMatched(line: string)
    ensures IsNameLine(line) <==> NameMatch(line).Some?
    ensures IsParamLine(line) <==> ParamMatch(line).Some?
    ensures IsParamLine(line) ==> !IsNameLine(line)
  {
    if NameMatch(line).Some? { NameMatchIs(line, NameMatch(line).value); }
    if name :| DeclaresName(line, name) { NameMatchIs(line, name); }
    if ParamMatch(line).Some? { MatchedIsDeclared(line, ParamMatch(line).value); }
    if p :| DeclaresParam(line, p) { DeclaredIsMatched(line, p); }
  }

  /** The last name line declares `name`. */
  ghost predicate LastName(lines: seq<string>, name: string) {
    exists i :: 0 <= i < |lines| && DeclaresName(lines[i], name) && NoNameFrom(lines, i + 1)
  }

  ghost predicate NoNameFrom(lines: seq<string>, i: nat) { forall j | i <= j < |lines| :: !IsNameLine(lines[j]) }

  function Matches(lines: seq<string>): seq<Option<string>> {
    seq(|lines|, i requires 0 <= i < |lines| => NameMatch(lines[i]))
  }

  predicate LastSome(os: seq<Option<string>>, x: string) {
    exists i :: 0 <= i < |os| && os[i] == Some(x) && NoneFrom(os, i + 1)
  }

  predicate NoneFrom(os: seq<Option<string>>, i: nat) { forall j | i <= j < |os| :: os[j].None? }

  lemma LastSomeNext(os: seq<Option<string>>, o: Option<string>, x: string)
    ensures LastSome(os + [o], x) <==> if o.Some? then o == Some(x) else LastSome(os, x)
    ensures NoneFrom(os + [o], 0) <==> NoneFrom(os, 0) && o.None?
  {
    var all := os + [o];
    assert all[|os|] == o && forall j | 0 <= j < |os| :: all[j] == os[j];
    if o == Some(x) {
      assert NoneFrom(all, |os| + 1);
    } else if o.None? && LastSome(os, x) {
      var i :| 0 <= i < |os| && os[i] == Some(x) && NoneFrom(os, i + 1);
      assert all[i] == Some(x) && NoneFrom(all, i + 1);
    }
  }

  lemma {:induction false} NameOfIsLastMatch(lines: seq<string>, name: string)
    ensures NameOf(lines) == Some(name) <==> LastSome(Matches(lines), name)
    ensures NameOf(lines).None? <==> NoneFrom(Matches(lines), 0)
  {
    if lines != [] {
      var k := |lines| - 1;
      NameOfIsLastMatch(lines[..k], name);
      assert Matches(lines) == Matches(lines[..k]) + [NameMatch(lines[k])];
      LastSomeNext(Matches(lines[..k]), NameMatch(lines[k]), name);
    }
  }

  lemma NameOfIsLast(lines: seq<string>, name: string)
    ensures NameOf(lines) == Some(name) <==> LastName(lines, name)
    ensures NameOf(lines).None? <==> NoNameFrom(lines, 0)
  {
    NameOfIsLastMatch(lines, name);
    var os := Matches(lines);
    forall i | 0 <= i < |lines|
      ensures os[i] == Some(name) <==> DeclaresName(lines[i], name)
      ensures os[i].Some? <==> IsNameLine(lines[i])
    {
      NameMatchIs(lines[i], name);
      LinesAreMatched(lines[i]);
    }
    forall i | 0 <= i <= |lines| ensures NoNameFrom(lines, i) <==> NoneFrom(os, i) {}
  }

  ghost predicate Declared(lines: seq<string>, p: string) { exists i :: 0 <= i < |lines| && DeclaresParam(lines[i], p) }

  lemma {:induction false} ParamsOfAreDeclared(lines: seq<string>, p: string)
    ensures p in ParamsOf(lines) <==> Declared(lines, p)
  {
    if lines != [] {
      var k := |lines| - 1;
      ParamsOfAreDeclared(lines[..k], p);
      if ParamMatch(lines[k]) == Some(p) { MatchedIsDeclared(lines[k], p); }
      if DeclaresParam(lines[k], p) { DeclaredIsMatched(lines[k], p); }
      DeclaredNext(lines, k, p);
    }
  }

  lemma DeclaredNext(lines: seq<string>, k: nat, p: string)
    requires k == |lines| - 1
    ensures Declared(lines, p) <==> Declared(lines[..k], p) || DeclaresParam(lines[k], p)
  {
    assert forall j | 0 <= j < k :: lines[..k][j] == lines[j];
    if Declared(lines[..k], p) {
      var i :| 0 <= i < k && DeclaresParam(lines[..k][i], p);
      assert DeclaresParam(lines[i], p);
    }
    if Declared(lines, p) {
      var i :| 0 <= i < |lines| && DeclaresParam(lines[i], p);
      assert i == k || DeclaresParam(lines[..k][i], p);
    }
  }

  /** The other lines are exactly the lines that declare neither a name nor a parameter, in order. */
  lemma {:induction false} OtherLinesAre(before: seq<string>, line: string, after: seq<string>)
    ensures OtherOf(before + [line] + after) ==
            OtherOf(before) + (if IsNameLine(line) || IsParamLine(line) then [] else [line]) + OtherOf(after)
  {
    ParseConcat(before + [line], after);
    ParseConcat(before, [line]);
    LinesAreMatched(line);
    OneLine(line);
  }

  /** Name and parameter lines use no parameters themselves, wherever they stand. */
  lemma {:induction false} HeaderLinesUseNothing(before: seq<string>, line: string, after: seq<string>)
    requires IsNameLine(line) || IsParamLine(line)
    ensures Used(before + [line] + after) == Used(before + after)
  {
    OtherLinesAre(before, line, after);
    ParseConcat(before, after);
    assert OtherOf(before) + [] + OtherOf(after) == OtherOf(before) + OtherOf(after);
  }

  lemma OneLine(line: string)
    ensures OtherOf([line]) == if NameMatch(line).Some? || ParamMatch(line).Some? then [] else [line]
  {
    assert [line][..0] == [];
  }

  // ------------------------------------------------------------ complaints

  lemma {:induction false} MissingEachIs(ps: seq<string>, c: Complaint)
    ensures c in MissingEach(ps) <==> c.Missing? && c.p in ps
  {
    if ps != [] {
      MissingEachIs(ps[1..], c);
      assert forall p :: p in ps <==> p == ps[0] || p in ps[1..];
    }
  }

  lemma {:induction false} UnusedEachIs(ps: seq<string>, c: Complaint)
    ensures c in UnusedEach(ps) <==> c.Unused? && c.p in ps
  {
    if ps != [] {
      UnusedEachIs(ps[1..], c);
      assert forall p :: p in ps <==> p == ps[0] || p in ps[1..];
    }
  }

  /** Exactly as many parameter lines as there are used parameters directly follow the name line. */
  ghost predicate ParamsFollowName(lines: seq<string>, count: nat) {
    && count < |lines| && IsNameLine(lines[0])
    && (forall i | 1 <= i <= count :: IsParamLine(lines[i]))
    && (count + 1 < |lines| ==> !IsParamLine(lines[count + 1]))
  }

  lemma HeaderInOrderIs(lines: seq<string>, count: nat)
    requires count > 0
    ensures HeaderInOrder(lines, count) <==> ParamsFollowName(lines, count)
  {
    forall i | 0 <= i < |lines|
      ensures IsNameLine(lines[i]) <==> NameMatch(lines[i]).Some?
      ensures IsParamLine(lines[i]) <==> ParamMatch(lines[i]).Some?
    {
      LinesAreMatched(lines[i]);
    }
  }

  /** Whether the first four checks, in the code's numbering, report the complaint. */
  ghost predicate Deserved(content: string, filename: string, c: Complaint) {
    var lines := SplitLines(content);
    match c
    case WrongName(got) =>
      !LastName(lines, filename) && (got.None? <==> NoNameFrom(lines, 0)) && (got.Some? ==> LastName(lines, got.value))
    case Missing(p) => p in Used(lines) && !Declared(lines, p)
    case Unused(p) => Declared(lines, p) && p !in Used(lines)
    case NotAtTop => content != "" && !("!# name:" <= content)
    case ParamsMisplaced => false
  }

  lemma HeaderComplaintsAre(content: string, filename: string, c: Complaint)
    ensures var lines := SplitLines(content);
            c in HeaderComplaints(content, filename, NameOf(lines), Used(lines), ParamsOf(lines)) <==>
              Deserved(content, filename, c)
  {
    var lines := SplitLines(content);
    var used, declared := Used(lines), ParamsOf(lines);
    NameOfIsLast(lines, filename);
    if c.WrongName? && c.got.Some? { NameOfIsLast(lines, c.got.value); }
    if c.WrongName? && NameOf(lines).Some? { NameOfIsLast(lines, NameOf(lines).value); }
    MissingEachIs(Sorted(used - declared), c);
    UnusedEachIs(Sorted(declared - used), c);
    if c.Missing? || c.Unused? { ParamsOfAreDeclared(lines, c.p); }
  }

  /** What is reported about a script, for every complaint: the wrong or missing name, exactly the
      used parameters that are not declared, exactly the declared ones that are not used, a script
      that does not begin with its name line; and misplaced parameters only if nothing else is wrong. */
  lemma ReportedIff(content: string, filename: string, c: Complaint)
    ensures
      var lines := SplitLines(content);
      c in Complaints(content, filename) <==>
        || Deserved(content, filename, c)
        || (&& c == ParamsMisplaced && (forall d :: !Deserved(content, filename, d))
            && Used(lines) != {} && !ParamsFollowName(lines, |Used(lines)|))
  {
    var lines := SplitLines(content);
    var first := HeaderComplaints(content, filename, NameOf(lines), Used(lines), ParamsOf(lines));
    forall d ensures d in first <==> Deserved(content, filename, d) { HeaderComplaintsAre(content, filename, d); }
    if Used(lines) != {} { HeaderInOrderIs(lines, |Used(lines)|); }
    if first != [] { assert first[0] in first; }
  }

  /** Named after its file, with exactly the used parameters declared, beginning with a name line and
      with the parameter lines directly after it. */
  ghost predicate Compliant(content: string, filename: string) {
    var lines := SplitLines(content);
    && LastName(lines, filename)
    && (forall p :: Declared(lines, p) <==> p in Used(lines))
    && (content != "" ==> "!# name:" <= content)
    && (Used(lines) != {} ==> ParamsFollowName(lines, |Used(lines)|))
  }

  lemma CompliantIsAccepted(content: string, filename: string)
    requires Compliant(content, filename)
    ensures Complaints(content, filename) == []
  {
    var all := Complaints(content, filename);
    if all != [] {
      ReportedIff(content, filename, all[0]);
    }
  }

  lemma AcceptedIsCompliant(content: string, filename: string)
    requires Complaints(content, filename) == []
    ensures Compliant(content, filename)
  {
    var lines := SplitLines(content);
    forall c: Complaint ensures !Deserved(content, filename, c) { ReportedIff(content, filename, c); }
    ReportedIff(content, filename, ParamsMisplaced);
    forall p ensures Declared(lines, p) <==> p in Used(lines) {
      assert !Deserved(content, filename, Missing(p)) && !Deserved(content, filename, Unused(p));
    }
    assert !Deserved(content, filename, NotAtTop) && !Deserved(content, filename, WrongName(NameOf(lines)));
    NameOfIsLast(lines, if NameOf(lines).Some? then NameOf(lines).value else "");
  }

  /** The linter accepts exactly the compliant scripts. */
  lemma AcceptedIff(content: string, filename: string)
    ensures Complaints(content, filename) == [] <==> Compliant(content, filename)
  {
    if Compliant(content, filename) {
      CompliantIsAccepted(content, filename);
    } else if Complaints(content, filename) == [] {
      AcceptedIsCompliant(content, filename);
    }
  }

  // ------------------------------------------------------------ order of complaints

  /** The name first, then missing and unused parameters, both ascending, then the first line. */
  predicate ComesBefore(a: Complaint, b: Complaint) {
    match a
    case WrongName(_) => !b.WrongName?
    case Missing(p) => !b.WrongName? && (b.Missing? ==> p != b.p && Leq(p, b.p))
    case Unused(p) => !b.WrongName? && !b.Missing? && (b.Unused? ==> p != b.p && Leq(p, b.p))
    case NotAtTop => false
    case ParamsMisplaced => false
  }

  predicate AllBefore(cs: seq<Complaint>) { forall i, j | 0 <= i < j < |cs| :: ComesBefore(cs[i], cs[j]) }

  lemma {:induction false} EachInPlace(ps: seq<string>)
    ensures |MissingEach(ps)| == |ps| == |UnusedEach(ps)|
    ensures forall i | 0 <= i < |ps| :: MissingEach(ps)[i] == Missing(ps[i]) && UnusedEach(ps)[i] == Unused(ps[i])
  {
    if ps != [] { EachInPlace(ps[1..]); }
  }

  lemma AppendBefore(a: seq<Complaint>, b: seq<Complaint>)
    requires AllBefore(a) && AllBefore(b)
    requires forall i, j | 0 <= i < |a| && 0 <= j < |b| :: ComesBefore(a[i], b[j])
    ensures AllBefore(a + b)
  {
  }

  lemma MissingInOrder(ps: seq<string>)
    requires Ascending(ps)
    ensures AllBefore(MissingEach(ps)) && forall i | 0 <= i < |MissingEach(ps)| :: MissingEach(ps)[i].Missing?
  {
    EachInPlace(ps);
  }

  lemma UnusedInOrder(ps: seq<string>)
    requires Ascending(ps)
    ensures AllBefore(UnusedEach(ps)) && forall i | 0 <= i < |UnusedEach(ps)| :: UnusedEach(ps)[i].Unused?
  {
    EachInPlace(ps);
  }

  /** The four kinds of complaints in their order. */
  lemma PartsInOrder(a: seq<Complaint>, b: seq<Complaint>, c: seq<Complaint>, d: seq<Complaint>)
    requires |a| <= 1 && |d| <= 1 && AllBefore(b) && AllBefore(c)
    requires forall i | 0 <= i < |a| :: a[i].WrongName?
    requires forall i | 0 <= i < |b| :: b[i].Missing?
    requires forall i | 0 <= i < |c| :: c[i].Unused?
    requires forall i | 0 <= i < |d| :: d[i].NotAtTop?
    ensures AllBefore(a + b + c + d)
  {
    AppendBefore(a, b);
    AppendBefore(a + b, c);
    AppendBefore(a + b + c, d);
  }

  /** Complaints are reported in a fixed order, none of them twice. */
  lemma ReportedInOrder(content: string, filename: string)
    ensures AllBefore(Complaints(content, filename))
  {
    var lines := SplitLines(content);
    var missing, unused := Sorted(Used(lines) - ParamsOf(lines)), Sorted(ParamsOf(lines) - Used(lines));
    MissingInOrder(missing);
    UnusedInOrder(unused);
    PartsInOrder(if NameOf(lines) != Some(filename) then [WrongName(NameOf(lines))] else [],
                 MissingEach(missing), UnusedEach(unused),
                 if content != "" && !(NAME_PREFIX <= content) then [NotAtTop] else []);
  }

  // ------------------------------------------------------------ lines and spaces

  lemma BreakAfter(line: string, c: char, rest: string)
    requires BreakFree(line) && IsBreak(c)
    ensures LineLength(line + [c] + rest) == |line|
  {
    var s := line + [c] + rest;
    assert s[..|line|] == line && s[|line|] == c;
  }

  /** A break ends a line. */
  lemma SplitAtBreak(line: string, c: char, rest: string)
    requires BreakFree(line) && IsBreak(c) && (c == '\r' ==> rest == "" || rest[0] != '\n')
    ensures SplitLines(line + [c] + rest) == [line] + SplitLines(rest)
  {
    var s := line + [c] + rest;
    BreakAfter(line, c, rest);
    assert s[..|line|] == line && s[|line|] == c && s[|line| + 1..] == rest;
    if rest != "" { assert s[|line| + 1] == rest[0]; }
  }

  /** A carriage return and the line feed after it are one break. */
  lemma SplitAtCrLf(line: string, rest: string)
    requires BreakFree(line)
    ensures SplitLines(line + ['\r'] + (['\n'] + rest)) == [line] + SplitLines(rest)
  {
    var s := line + ['\r'] + (['\n'] + rest);
    BreakAfter(line, '\r', ['\n'] + rest);
    assert s[..|line|] == line && s[|line|] == '\r' && s[|line| + 1] == '\n' && s[|line| + 2..] == rest;
  }

  /** Stripping removes the spaces at both ends and nothing else. */
  lemma StripRemovesOuterSpaces(s: string) returns (front: string, back: string)
    ensures s == front + Strip(s) + back && AllSpace(front) && AllSpace(back)
    ensures Strip(s) == "" || (!IsSpace(Strip(s)[0]) && !IsSpace(Strip(s)[|Strip(s)| - 1]))
  {
    var k := LStripParts(s);
    var j := RStripParts(LStrip(s));
    front, back := s[..k], s[k..][j..];
    assert s == s[..k] + (s[k..][..j] + s[k..][j..]);
  }

  // ------------------------------------------------------------ characters

  /** The characters str.splitlines breaks at, those str.isspace accepts, and those of identifiers. */
  lemma CharacterTables(c: char)
    ensures var n := c as int;
      && (IsBreak(c) <==> n in {10, 11, 12, 13, 28, 29, 30, 133, 8232, 8233})
      && (IsSpace(c) <==> n in {9, 10, 11, 12, 13, 28, 29, 30, 31, 32, 133, 160, 5760, 8192, 8193, 8194, 8195, 8196,
                                8197, 8198, 8199, 8200, 8201, 8202, 8232, 8233, 8239, 8287, 12288})
      && (IdentStart(c) <==> 65 <= n <= 90 || 97 <= n <= 122 || n == 95)
      && (IdentChar(c) <==> 48 <= n <= 57 || 65 <= n <= 90 || 97 <= n <= 122 || n == 95)
  {
  }
}
