/** The header linter for ReGa scripts. */
module RegaScripts {
  import opened Basics
  import opened Strings

  // ------------------------------------------------------------ characters and lines

  /** Python's str.isspace, which is also what `\s` matches and what strip() removes. */
  predicate IsSpace(c: char) {
    || '\U{0009}' <= c <= '\U{000D}' || '\U{001C}' <= c <= '\U{0020}' || c == '\U{0085}' || c == '\U{00A0}'
    || c == '\U{1680}' || '\U{2000}' <= c <= '\U{200A}' || c == '\U{2028}' || c == '\U{2029}'
    || c == '\U{202F}' || c == '\U{205F}' || c == '\U{3000}'
  }

  /** Where str.splitlines breaks. */
  predicate IsBreak(c: char) {
    || '\U{000A}' <= c <= '\U{000D}' || '\U{001C}' <= c <= '\U{001E}' || c == '\U{0085}'
    || c == '\U{2028}' || c == '\U{2029}'
  }

  predicate BreakFree(s: string) { forall i | 0 <= i < |s| :: !IsBreak(s[i]) }

  function LineLength(s: string): (n: nat)
    ensures n <= |s| && BreakFree(s[..n]) && (n < |s| ==> IsBreak(s[n]))
  {
    if s == "" || IsBreak(s[0]) then 0 else
      var n := LineLength(s[1..]);
      assert s[..n + 1] == [s[0]] + s[1..][..n];
      n + 1
  }

  /** str.splitlines; a carriage return followed by a line feed is one break. */
  function SplitLines(s: string): seq<string>
    decreases |s|
  {
    if s == "" then []
    else
      var n := LineLength(s);
      if n == |s| then [s]
      else if s[n] == '\r' && n + 1 < |s| && s[n + 1] == '\n' then [s[..n]] + SplitLines(s[n + 2..])
      else [s[..n]] + SplitLines(s[n + 1..])
  }

  /** "\n".join(lines) */
  function JoinLines(lines: seq<string>): string {
    if lines == [] then "" else if |lines| == 1 then lines[0] else lines[0] + "\n" + JoinLines(lines[1..])
  }

  function LStrip(s: string): string {
    if s != "" && IsSpace(s[0]) then LStrip(s[1..]) else s
  }

  function RStrip(s: string): string {
    if s != "" && IsSpace(s[|s| - 1]) then RStrip(s[..|s| - 1]) else s
  }

  function Strip(s: string): string { RStrip(LStrip(s)) }

  predicate Blank(line: string) { Strip(line) == "" }

  // ------------------------------------------------------------ patterns

  const NAME_PREFIX := "!# name:"
  const PARAM_PREFIX := "!# param:"

  /** `^!# name:\s*(.+)$`, the group stripped. */
  function NameMatch(line: string): Option<string> {
    if NAME_PREFIX <= line && |line| > |NAME_PREFIX| then Some(Strip(line[|NAME_PREFIX|..])) else None
  }

  predicate IdentStart(c: char) { 'a' <= c <= 'z' || 'A' <= c <= 'Z' || c == '_' }
  predicate IdentChar(c: char) { IdentStart(c) || '0' <= c <= '9' }
  predicate IsIdent(s: string) { s != "" && IdentStart(s[0]) && forall i | 0 <= i < |s| :: IdentChar(s[i]) }

  function Quoted(ident: string): string { "\"##" + ident + "##\"" }

  /** `^!# param:\s*"##(ident)##"$`, the group. */
  function ParamMatch(line: string): Option<string> {
    if PARAM_PREFIX <= line then
      var r := LStrip(line[|PARAM_PREFIX|..]);
      if |r| > 6 && IsIdent(r[3..|r| - 3]) && r == Quoted(r[3..|r| - 3]) then Some(r[3..|r| - 3]) else None
    else None
  }

  function IdentLength(s: string): (n: nat)
    ensures n <= |s| && forall i | 0 <= i < n :: IdentChar(s[i])
  {
    if s == "" || !IdentChar(s[0]) then 0 else 1 + IdentLength(s[1..])
  }

  /** `##(ident)##` at the start of `s`, the group. */
  function ParamAt(s: string): (r: Option<string>)
    ensures r.Some? ==> IsIdent(r.value) && |r.value| + 4 <= |s|
  {
    if "##" <= s then
      var n := IdentLength(s[2..]);
      if n > 0 && IdentStart(s[2]) && "##" <= s[2 + n..] then Some(s[2..2 + n]) else None
    else None
  }

  /** Pattern.findall: leftmost matches that do not overlap. */
  function FindParams(s: string): set<string>
    decreases |s|
  {
    if s == "" then {}
    else match ParamAt(s)
      case Some(p) => {p} + FindParams(s[|p| + 4..])
      case None => FindParams(s[1..])
  }

  // ------------------------------------------------------------ parsing

  predicate IsOther(line: string) { NameMatch(line).None? && ParamMatch(line).None? }

  /** The last declared name. */
  function NameOf(lines: seq<string>): Option<string> {
    if lines == [] then None
    else if NameMatch(lines[|lines| - 1]).Some? then NameMatch(lines[|lines| - 1])
    else NameOf(lines[..|lines| - 1])
  }

  function ParamsOf(lines: seq<string>): set<string> {
    if lines == [] then {}
    else
      var line := lines[|lines| - 1];
      var rest := ParamsOf(lines[..|lines| - 1]);
      if NameMatch(line).None? && ParamMatch(line).Some? then rest + {ParamMatch(line).value} else rest
  }

  function OtherOf(lines: seq<string>): seq<string> {
    if lines == [] then []
    else if IsOther(lines[|lines| - 1]) then OtherOf(lines[..|lines| - 1]) + [lines[|lines| - 1]]
    else OtherOf(lines[..|lines| - 1])
  }

  function Used(lines: seq<string>): set<string> { FindParams(JoinLines(OtherOf(lines))) }

  method ParseScript(content: string)
      returns (declaredName: Option<string>, declaredParams: set<string>, otherLines: seq<string>)
    ensures var lines := SplitLines(content);
            declaredName == NameOf(lines) && declaredParams == ParamsOf(lines) && otherLines == OtherOf(lines)
  {
    var lines := SplitLines(content);
    declaredName, declaredParams, otherLines := None, {}, [];
    for i := 0 to |lines|
      invariant declaredName == NameOf(lines[..i]) && declaredParams == ParamsOf(lines[..i])
      invariant otherLines == OtherOf(lines[..i])
    {
      assert lines[..i + 1][..i] == lines[..i];
      var name, param := NameMatch(lines[i]), ParamMatch(lines[i]);
      if name.Some? {
        declaredName := name;
      } else if param.Some? {
        declaredParams := declaredParams + {param.value};
      } else {
        otherLines := otherLines + [lines[i]];
      }
    }
    assert lines[..|lines|] == lines;
  }

  // ------------------------------------------------------------ generating

  predicate Ascending(s: seq<string>) { forall i, j | 0 <= i < j < |s| :: s[i] != s[j] && Leq(s[i], s[j]) }

  predicate Enumerates(r: seq<string>, s: set<string>) {
    Ascending(r) && |r| == |s| && (forall x | x in r :: x in s) && (forall x | x in s :: x in r)
  }

  lemma {:induction false} HasLeast(s: set<string>) returns (x: string)
    requires s != {}
    ensures x in s && forall y | y in s :: Leq(x, y)
    decreases |s|
  {
    x :| x in s;
    LeqReflexive(x);
    if s != {x} {
      var z := HasLeast(s - {x});
      LeqTotal(x, z);
      if Leq(x, z) {
        forall y | y in s ensures Leq(x, y) {
          if y != x { LeqTransitive(x, z, y); }
        }
      } else {
        x := z;
      }
    }
  }

  lemma {:induction false} HasEnumeration(s: set<string>) returns (r: seq<string>)
    ensures Enumerates(r, s)
    decreases |s|
  {
    if s == {} {
      r := [];
    } else {
      var x := HasLeast(s);
      var rest := HasEnumeration(s - {x});
      r := [x] + rest;
      forall j | 0 <= j < |rest| ensures x != rest[j] && Leq(x, rest[j]) {
        assert rest[j] in s - {x};
      }
    }
  }

  /** sorted(params) */
  ghost function Sorted(s: set<string>): (r: seq<string>)
    ensures Enumerates(r, s)
  {
    assert exists r :: Enumerates(r, s) by { var r := HasEnumeration(s); }
    var r :| Enumerates(r, s);
    r
  }

  function ParamLine(p: string): string { PARAM_PREFIX + " " + Quoted(p) }

  function ParamLines(ps: seq<string>): seq<string> {
    seq(|ps|, i requires 0 <= i < |ps| => ParamLine(ps[i]))
  }

  /** Drop leading blank lines. */
  function Trimmed(lines: seq<string>): seq<string> {
    if lines != [] && Blank(lines[0]) then Trimmed(lines[1..]) else lines
  }

  /** An empty line after the header, unless the rest is empty or starts with another comment. */
  function Separator(rest: seq<string>): seq<string> {
    if rest != [] && !("!#" <= rest[0]) then [""] else []
  }

  ghost function FixedLines(filename: string, used: set<string>, other: seq<string>): seq<string> {
    ["!# name: " + filename] + ParamLines(Sorted(used)) + (Separator(Trimmed(other)) + Trimmed(other))
  }

  ghost function Generated(filename: string, used: set<string>, other: seq<string>): string {
    JoinLines(FixedLines(filename, used, other)) + "\n"
  }

  /** What fixing a script writes. */
  ghost function Fixed(content: string, filename: string): string {
    var lines := SplitLines(content);
    Generated(filename, Used(lines), OtherOf(lines))
  }

  // ------------------------------------------------------------ checking

  datatype Complaint =
    | WrongName(got: Option<string>) | Missing(p: string) | Unused(p: string) | NotAtTop | ParamsMisplaced

  /** Exactly `count` param lines follow the name line directly. */
  ghost predicate HeaderInOrder(lines: seq<string>, count: nat) {
    && lines != [] && NameMatch(lines[0]).Some?
    && (count > 0 ==>
          && count < |lines|
          && (forall i | 1 <= i <= count :: ParamMatch(lines[i]).Some?)
          && (count + 1 < |lines| ==> ParamMatch(lines[count + 1]).None?))
  }

  method CheckHeaderOrder(content: string, expected: nat) returns (ok: bool)
    ensures ok <==> HeaderInOrder(SplitLines(content), expected)
  {
    ok := CheckOrder(SplitLines(content), expected);
  }

  method CheckOrder(lines: seq<string>, expected: nat) returns (ok: bool)
    ensures ok <==> HeaderInOrder(lines, expected)
  {
    if lines == [] || NameMatch(lines[0]).None? {
      return false;
    }
    if expected == 0 {
      return true;
    }
    var found := 0;
    for i := 1 to |lines|
      invariant 0 <= found < i && (found > 0 ==> found == i - 1)
      invariant forall j | 1 <= j <= found :: ParamMatch(lines[j]).Some?
      invariant found == 0 ==> forall j | 1 <= j < i :: ParamMatch(lines[j]).None?
    {
      if ParamMatch(lines[i]).Some? {
        if i != found + 1 {
          return false;
        }
        found := found + 1;
      } else if found > 0 {
        assert ParamMatch(lines[found + 1]).None?;
        return found == expected;
      }
    }
    return found == expected;
  }

  function MissingEach(ps: seq<string>): seq<Complaint> {
    if ps == [] then [] else [Missing(ps[0])] + MissingEach(ps[1..])
  }

  function UnusedEach(ps: seq<string>): seq<Complaint> {
    if ps == [] then [] else [Unused(ps[0])] + UnusedEach(ps[1..])
  }

  /** Checks 1 to 4: the name, missing and unused declarations, and the first line. */
  ghost function HeaderComplaints(content: string, filename: string, name: Option<string>,
                                  used: set<string>, declared: set<string>): seq<Complaint> {
    (if name != Some(filename) then [WrongName(name)] else [])
    + MissingEach(Sorted(used - declared))
    + UnusedEach(Sorted(declared - used))
    + (if content != "" && !(NAME_PREFIX <= content) then [NotAtTop] else [])
  }

  /** The errors check_script collects, in order; check 5 is made only if the others pass. */
  ghost function Complaints(content: string, filename: string): seq<Complaint> {
    var lines := SplitLines(content);
    var used := Used(lines);
    var first := HeaderComplaints(content, filename, NameOf(lines), used, ParamsOf(lines));
    if first == [] && used != {} && !HeaderInOrder(lines, |used|) then [ParamsMisplaced] else first
  }

  // ------------------------------------------------------------ the script's procedures

  lemma {:induction false} EnumerationIsUnique(a: seq<string>, b: seq<string>, s: set<string>)
    requires Enumerates(a, s) && Enumerates(b, s)
    ensures a == b
    decreases |a|
  {
    if a != [] {
      assert a[0] in s && b[0] in s;
      if a[0] != b[0] {
        LeqAntisymmetric(a[0], b[0]);
      }
      EnumerationIsUnique(a[1..], b[1..], s - {a[0]});
    }
  }

  /** sorted(): repeatedly take the least. */
  lemma OneMoreSorted(r: seq<string>, s: set<string>, x: string)
    requires Enumerates(r, s) && x !in s && forall y | y in r :: Leq(y, x)
    ensures Enumerates(r + [x], s + {x})
  {
  }

  method SortParams(params: set<string>) returns (sorted: seq<string>)
    ensures sorted == Sorted(params)
  {
    sorted := [];
    var todo := params;
    while todo != {}
      invariant todo <= params && Enumerates(sorted, params - todo)
      invariant forall x, y | x in sorted && y in todo :: Leq(x, y)
      decreases |todo|
    {
      ghost var least := HasLeast(todo);
      var x :| x in todo && forall y | y in todo :: Leq(x, y);
      OneMoreSorted(sorted, params - todo, x);
      assert params - (todo - {x}) == (params - todo) + {x};
      sorted := sorted + [x];
      todo := todo - {x};
    }
    assert params - todo == params;
    EnumerationIsUnique(sorted, Sorted(params), params);
  }

  /** Pops leading blank lines, then puts the regenerated header in front. */
  method GenerateFixedContent(filename: string, used: set<string>, otherLines: seq<string>) returns (content: string)
    ensures content == Generated(filename, used, otherLines)
  {
    var params := SortParams(used);
    var header := ["!# name: " + filename] + ParamLines(params);
    var rest := otherLines;
    while rest != [] && Blank(rest[0])
      invariant Trimmed(rest) == Trimmed(otherLines)
    {
      rest := rest[1..];
    }
    if rest != [] && !("!#" <= rest[0]) {
      header := header + [""];
    }
    assert header + rest == ["!# name: " + filename] + ParamLines(params) + (Separator(rest) + rest);
    content := JoinLines(header + rest) + "\n";
  }

  method CheckHeader(content: string, filename: string, declaredName: Option<string>,
                     used: set<string>, declared: set<string>) returns (errors: seq<Complaint>)
    ensures errors == HeaderComplaints(content, filename, declaredName, used, declared)
  {
    errors := if declaredName != Some(filename) then [WrongName(declaredName)] else [];
    var missing := SortParams(used - declared);
    errors := errors + MissingEach(missing);
    var unused := SortParams(declared - used);
    errors := errors + UnusedEach(unused);
    if content != "" && !(NAME_PREFIX <= content) {
      errors := errors + [NotAtTop];
    }
  }

  /** check_script on a readable file: with `fix`, a script with errors is rewritten and reported
      clean; otherwise it is left as it is. */
  method CheckScript(content: string, filename: string, fix: bool)
      returns (errors: seq<Complaint>, written: Option<string>)
    ensures written == if fix && Complaints(content, filename) != [] then Some(Fixed(content, filename)) else None
    ensures errors == if written.Some? then [] else Complaints(content, filename)
  {
    var declaredName, declaredParams, otherLines := ParseScript(content);
    var used := FindParams(JoinLines(otherLines));
    written := None;
    errors := CheckHeader(content, filename, declaredName, used, declaredParams);
    if errors == [] && used != {} {
      var inOrder := CheckHeaderOrder(content, |used|);
      if !inOrder {
        errors := [ParamsMisplaced];
      }
    }
    if fix && errors != [] {
      var fixedContent := GenerateFixedContent(filename, used, otherLines);
      errors, written := [], Some(fixedContent);
    }
  }
}
