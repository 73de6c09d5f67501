/** Fixing a script makes it pass, keeps its body, and is idempotent. */
module RegaScriptsProofs {
  import opened Basics
  import opened RegaScripts

  // ------------------------------------------------------------ lines

  lemma {:induction false} LengthOfFirstLine(line: string, rest: string)
    requires BreakFree(line)
    ensures LineLength(line + "\n" + rest) == |line|
  {
    var s := line + "\n" + rest;
    if line != "" {
      assert s[1..] == line[1..] + "\n" + rest;
      LengthOfFirstLine(line[1..], rest);
    }
  }

  lemma FirstLine(line: string, rest: string)
    requires BreakFree(line)
    ensures SplitLines(line + "\n" + rest) == [line] + SplitLines(rest)
  {
    var s := line + "\n" + rest;
    LengthOfFirstLine(line, rest);
    assert s[|line|] == '\n' && s[..|line|] == line && s[|line| + 1..] == rest;
  }

  predicate AllBreakFree(lines: seq<string>) { forall i | 0 <= i < |lines| :: BreakFree(lines[i]) }

  /** Joining lines and splitting them again gives the lines back. */
  lemma {:induction false} SplitJoin(lines: seq<string>)
    requires lines != [] && AllBreakFree(lines)
    ensures SplitLines(JoinLines(lines) + "\n") == lines
  {
    if |lines| == 1 {
      FirstLine(lines[0], "");
      assert JoinLines(lines) + "\n" == lines[0] + "\n" + "";
    } else {
      SplitJoin(lines[1..]);
      FirstLine(lines[0], JoinLines(lines[1..]) + "\n");
      assert JoinLines(lines) + "\n" == lines[0] + "\n" + (JoinLines(lines[1..]) + "\n");
    }
  }

  lemma {:induction false} SplitIsBreakFree(s: string)
    ensures AllBreakFree(SplitLines(s))
    decreases |s|
  {
    if s != "" {
      var n := LineLength(s);
      if n == |s| {
      } else if s[n] == '\r' && n + 1 < |s| && s[n + 1] == '\n' {
        SplitIsBreakFree(s[n + 2..]);
      } else {
        SplitIsBreakFree(s[n + 1..]);
      }
    }
  }

  // ------------------------------------------------------------ stripping

  predicate AllSpace(s: string) { forall i | 0 <= i < |s| :: IsSpace(s[i]) }

  /** No space at either end. */
  predicate Tight(s: string) { s == "" || (!IsSpace(s[0]) && !IsSpace(s[|s| - 1])) }

  lemma {:induction false} LStripParts(s: string) returns (k: nat)
    ensures k <= |s| && LStrip(s) == s[k..] && AllSpace(s[..k])
    ensures LStrip(s) == "" || !IsSpace(LStrip(s)[0])
  {
    if s != "" && IsSpace(s[0]) {
      var j := LStripParts(s[1..]);
      k := j + 1;
      forall i | 0 <= i < k ensures IsSpace(s[..k][i]) {
        assert i == 0 || s[i] == s[1..][..j][i - 1];
      }
    } else {
      k := 0;
    }
  }

  lemma {:induction false} RStripParts(s: string) returns (k: nat)
    ensures k <= |s| && RStrip(s) == s[..k] && AllSpace(s[k..])
    ensures RStrip(s) == "" || !IsSpace(RStrip(s)[k - 1])
  {
    if s != "" && IsSpace(s[|s| - 1]) {
      var t := s[..|s| - 1];
      k := RStripParts(t);
      forall i | 0 <= i < |s| - k ensures IsSpace(s[k..][i]) {
        if i < |t| - k { assert s[k..][i] == t[k..][i]; }
      }
    } else {
      k := |s|;
    }
  }

  lemma StripIsTight(s: string)
    ensures Tight(Strip(s))
    ensures BreakFree(s) ==> BreakFree(Strip(s))
    ensures Strip(s) == "" ==> AllSpace(s)
  {
    var k := LStripParts(s);
    var j := RStripParts(LStrip(s));
  }

  lemma BlankHasNoHash(line: string)
    requires Blank(line)
    ensures NoHash(line)
  {
    StripIsTight(line);
  }

  // ------------------------------------------------------------ parsing parts

  lemma {:induction false} ParseConcat(a: seq<string>, b: seq<string>)
    ensures OtherOf(a + b) == OtherOf(a) + OtherOf(b)
    ensures ParamsOf(a + b) == ParamsOf(a) + ParamsOf(b)
    ensures NameOf(a + b) == if NameOf(b).Some? then NameOf(b) else NameOf(a)
  {
    if b == [] {
      assert a + b == a;
    } else {
      assert (a + b)[..|a + b| - 1] == a + b[..|b| - 1];
      ParseConcat(a, b[..|b| - 1]);
    }
  }

  predicate AllOther(lines: seq<string>) { forall i | 0 <= i < |lines| :: IsOther(lines[i]) }

  lemma {:induction false} ParseOther(lines: seq<string>)
    requires AllOther(lines)
    ensures OtherOf(lines) == lines && ParamsOf(lines) == {} && NameOf(lines) == None
  {
    if lines != [] {
      ParseOther(lines[..|lines| - 1]);
      assert lines == lines[..|lines| - 1] + [lines[|lines| - 1]];
    }
  }

  lemma {:induction false} OtherIsOther(lines: seq<string>)
    ensures AllOther(OtherOf(lines))
    ensures AllBreakFree(lines) ==> AllBreakFree(OtherOf(lines))
  {
    if lines != [] {
      OtherIsOther(lines[..|lines| - 1]);
    }
  }

  lemma ParamLineMatches(p: string)
    requires IsIdent(p)
    ensures NameMatch(ParamLine(p)).None? && ParamMatch(ParamLine(p)) == Some(p) && BreakFree(ParamLine(p))
  {
    var line := ParamLine(p);
    assert line[3] == 'p';
    var r := line[|PARAM_PREFIX|..];
    assert LStrip(r) == LStrip(r[1..]) == Quoted(p);
  }

  lemma ParseParamLine(p: string)
    requires IsIdent(p)
    ensures var ls := [ParamLine(p)]; OtherOf(ls) == [] && NameOf(ls) == None && ParamsOf(ls) == {p} && AllBreakFree(ls)
  {
    ParamLineMatches(p);
    assert [ParamLine(p)][..0] == [];
  }

  lemma ParamLinesNext(ps: seq<string>, n: nat)
    requires n == |ps| - 1
    ensures ParamLines(ps) == ParamLines(ps[..n]) + [ParamLine(ps[n])]
    ensures (set p | p in ps) == (set p | p in ps[..n]) + {ps[n]}
  {
    assert ps == ps[..n] + [ps[n]];
  }

  lemma {:induction false} ParseParamLines(ps: seq<string>)
    requires forall i | 0 <= i < |ps| :: IsIdent(ps[i])
    ensures var ls := ParamLines(ps);
            OtherOf(ls) == [] && NameOf(ls) == None && ParamsOf(ls) == (set p | p in ps) && AllBreakFree(ls)
  {
    if ps != [] {
      var n := |ps| - 1;
      ParseParamLines(ps[..n]);
      ParseParamLine(ps[n]);
      ParamLinesNext(ps, n);
      ParseConcat(ParamLines(ps[..n]), [ParamLine(ps[n])]);
    }
  }

  // ------------------------------------------------------------ parameters

  predicate NoHash(s: string) { forall i | 0 <= i < |s| :: s[i] != '#' }

  lemma {:induction false} SkipNoHash(x: string, s: string)
    requires NoHash(x)
    ensures FindParams(x + s) == FindParams(s)
  {
    if x == "" {
      assert x + s == s;
    } else {
      assert (x + s)[0] != '#';
      assert (x + s)[1..] == x[1..] + s;
      SkipNoHash(x[1..], s);
    }
  }

  lemma {:induction false} NothingToFind(s: string)
    requires NoHash(s)
    ensures FindParams(s) == {}
  {
    SkipNoHash(s, "");
    assert s + "" == s;
  }

  lemma {:induction false} FoundAreIdents(s: string)
    ensures forall p | p in FindParams(s) :: IsIdent(p)
    decreases |s|
  {
    if s != "" {
      match ParamAt(s)
      case Some(p) => FoundAreIdents(s[|p| + 4..]);
      case None => FoundAreIdents(s[1..]);
    }
  }

  predicate OccursAt(s: string, p: string, i: nat) {
    i + |p| + 4 <= |s| && s[i..i + |p| + 4] == "##" + p + "##"
  }

  /** Only parameters that occur in the text are found. */
  lemma {:induction false} FoundOccur(s: string, p: string)
    requires p in FindParams(s)
    ensures exists i: nat :: OccursAt(s, p, i)
    decreases |s|
  {
    match ParamAt(s)
    case Some(q) =>
      if p == q {
        assert OccursAt(s, p, 0);
      } else {
        FoundOccur(s[|q| + 4..], p);
        var i: nat :| OccursAt(s[|q| + 4..], p, i);
        OccursFurther(s, |q| + 4, p, i);
      }
    case None =>
      FoundOccur(s[1..], p);
      var i: nat :| OccursAt(s[1..], p, i);
      OccursFurther(s, 1, p, i);
  }

  lemma OccursFurther(s: string, k: nat, p: string, i: nat)
    requires k <= |s| && OccursAt(s[k..], p, i)
    ensures OccursAt(s, p, k + i)
  {
    assert s[k..][i..i + |p| + 4] == s[k + i..k + i + |p| + 4];
  }

  lemma {:induction false} IdentRuns(p: string, rest: string)
    requires (forall i | 0 <= i < |p| :: IdentChar(p[i])) && (rest == "" || !IdentChar(rest[0]))
    ensures IdentLength(p + rest) == |p|
  {
    if p != "" {
      assert (p + rest)[1..] == p[1..] + rest;
      IdentRuns(p[1..], rest);
    }
  }

  /** The first parameter of a text is found, and the search goes on behind it. */
  lemma FirstIsFound(before: string, p: string, after: string)
    requires NoHash(before) && IsIdent(p)
    ensures FindParams(before + ("##" + p + "##" + after)) == {p} + FindParams(after)
  {
    SkipNoHash(before, "##" + p + "##" + after);
    ParamAtStart(p, after);
  }

  lemma ParamAtStart(p: string, after: string)
    requires IsIdent(p)
    ensures var s := "##" + p + "##" + after; ParamAt(s) == Some(p) && s[|p| + 4..] == after
  {
    var s := "##" + p + "##" + after;
    assert s[2..] == p + ("##" + after);
    IdentRuns(p, "##" + after);
    assert s[2..2 + |p|] == p;
  }

  /** A blank first line does not change the parameters used. */
  lemma BlankFirstLine(line: string, rest: seq<string>)
    requires Blank(line)
    ensures FindParams(JoinLines([line] + rest)) == FindParams(JoinLines(rest))
  {
    BlankHasNoHash(line);
    if rest == [] {
      NothingToFind(line);
    } else {
      SkipNoHash(line + "\n", JoinLines(rest));
    }
  }

  lemma {:induction false} TrimKeepsParams(lines: seq<string>)
    ensures FindParams(JoinLines(Trimmed(lines))) == FindParams(JoinLines(lines))
  {
    if lines != [] && Blank(lines[0]) {
      TrimKeepsParams(lines[1..]);
      BlankFirstLine(lines[0], lines[1..]);
    }
  }

  lemma {:induction false} TrimmedParts(lines: seq<string>)
    ensures Trimmed(lines) == [] || !Blank(Trimmed(lines)[0])
    ensures AllOther(lines) ==> AllOther(Trimmed(lines))
    ensures AllBreakFree(lines) ==> AllBreakFree(Trimmed(lines))
    ensures Trimmed(Trimmed(lines)) == Trimmed(lines)
  {
    if lines != [] && Blank(lines[0]) {
      TrimmedParts(lines[1..]);
    }
  }

  /** The body a fixed script ends up with. */
  function Body(other: seq<string>): seq<string> { Separator(Trimmed(other)) + Trimmed(other) }

  lemma BodyKeepsEverything(other: seq<string>)
    requires AllOther(other) && AllBreakFree(other)
    ensures AllOther(Body(other)) && AllBreakFree(Body(other))
    ensures Trimmed(Body(other)) == Trimmed(other)
    ensures FindParams(JoinLines(Body(other))) == FindParams(JoinLines(other))
  {
    var t := Trimmed(other);
    TrimmedParts(other);
    TrimKeepsParams(other);
    if Separator(t) == [""] {
      BlankFirstLine("", t);
    }
  }

  // ------------------------------------------------------------ the fixed script

  lemma ParseNameLine(filename: string)
    ensures var ls := ["!# name: " + filename];
            NameOf(ls) == Some(Strip(filename)) && ParamsOf(ls) == {} && OtherOf(ls) == []
    ensures BreakFree(filename) ==> BreakFree("!# name: " + filename)
  {
  }

  lemma ParseHeader(filename: string, ps: seq<string>)
    requires forall i | 0 <= i < |ps| :: IsIdent(ps[i])
    ensures var h := ["!# name: " + filename] + ParamLines(ps);
            NameOf(h) == Some(Strip(filename)) && ParamsOf(h) == (set p | p in ps) && OtherOf(h) == []
    ensures BreakFree(filename) ==> AllBreakFree(["!# name: " + filename] + ParamLines(ps))
  {
    ParseNameLine(filename);
    ParseParamLines(ps);
    ParseConcat(["!# name: " + filename], ParamLines(ps));
  }

  lemma {:induction false} ParseWhole(header: seq<string>, body: seq<string>)
    requires AllOther(body) && OtherOf(header) == []
    ensures NameOf(header + body) == NameOf(header) && ParamsOf(header + body) == ParamsOf(header)
    ensures OtherOf(header + body) == body
  {
    ParseConcat(header, body);
    ParseOther(body);
  }

  /** What parsing the fixed script finds: the file name, exactly the parameters used, and the
      original body without its leading blank lines. */
  lemma {:induction false} ParseFixed(filename: string, used: set<string>, other: seq<string>)
    requires BreakFree(filename) && AllOther(other) && AllBreakFree(other) && forall p | p in used :: IsIdent(p)
    ensures var lines := FixedLines(filename, used, other);
      && SplitLines(Generated(filename, used, other)) == lines
      && NameOf(lines) == Some(Strip(filename)) && ParamsOf(lines) == used && OtherOf(lines) == Body(other)
  {
    var ps := Sorted(used);
    BodyKeepsEverything(other);
    ParseHeader(filename, ps);
    ParseWhole(["!# name: " + filename] + ParamLines(ps), Body(other));
    SplitJoin(FixedLines(filename, used, other));
  }

  lemma OriginalParts(content: string)
    ensures var lines := SplitLines(content);
            AllOther(OtherOf(lines)) && AllBreakFree(OtherOf(lines)) && forall p | p in Used(lines) :: IsIdent(p)
  {
    var lines := SplitLines(content);
    SplitIsBreakFree(content);
    OtherIsOther(lines);
    FoundAreIdents(JoinLines(OtherOf(lines)));
  }

  lemma UsedInFixed(content: string, filename: string)
    requires BreakFree(filename)
    ensures
      var lines, fixedLines := SplitLines(content), SplitLines(Fixed(content, filename));
      && fixedLines == FixedLines(filename, Used(lines), OtherOf(lines))
      && NameOf(fixedLines) == Some(Strip(filename)) && ParamsOf(fixedLines) == Used(lines)
      && OtherOf(fixedLines) == Body(OtherOf(lines)) && Used(fixedLines) == Used(lines)
  {
    var lines := SplitLines(content);
    OriginalParts(content);
    ParseFixed(filename, Used(lines), OtherOf(lines));
    BodyKeepsEverything(OtherOf(lines));
  }

  /** Fixing keeps every non-header line in order, apart from leading blank lines. */
  lemma {:induction false} FixingKeepsTheBody(content: string, filename: string)
    requires BreakFree(filename)
    ensures Trimmed(OtherOf(SplitLines(Fixed(content, filename)))) == Trimmed(OtherOf(SplitLines(content)))
  {
    UsedInFixed(content, filename);
    OriginalParts(content);
    BodyKeepsEverything(OtherOf(SplitLines(content)));
  }

  /** The layout of a fixed script: the name line, one line per used parameter in ascending order,
      then the body, after exactly one empty line unless it is empty or opens with a comment. */
  lemma {:induction false} FixedLayout(content: string, filename: string)
    requires BreakFree(filename)
    ensures
      var lines, original := SplitLines(Fixed(content, filename)), SplitLines(content);
      var ps, body := Sorted(Used(original)), Trimmed(OtherOf(original));
      && |lines| > |ps| && lines[0] == "!# name: " + filename
      && (forall i | 0 <= i < |ps| :: lines[i + 1] == "!# param: \"##" + ps[i] + "##\"")
      && lines[|ps| + 1..] == (if body == [] || "!#" <= body[0] then body else [""] + body)
  {
    UsedInFixed(content, filename);
    HeaderLayout(filename, Sorted(Used(SplitLines(content))), Body(OtherOf(SplitLines(content))));
  }

  lemma HeaderLayout(filename: string, ps: seq<string>, body: seq<string>)
    ensures
      var lines := ["!# name: " + filename] + ParamLines(ps) + body;
      && |lines| > |ps| && lines[0] == "!# name: " + filename && lines[|ps| + 1..] == body
      && (forall i | 0 <= i < |ps| :: lines[i + 1] == "!# param: \"##" + ps[i] + "##\"")
  {
    var lines := ["!# name: " + filename] + ParamLines(ps) + body;
  }

  /** Fixing a fixed script gives identical content. */
  lemma {:induction false} FixingIsIdempotent(content: string, filename: string)
    requires BreakFree(filename)
    ensures Fixed(Fixed(content, filename), filename) == Fixed(content, filename)
  {
    FixingKeepsTheBody(content, filename);
    UsedInFixed(content, filename);
  }

  lemma FixedHeaderInOrder(filename: string, used: set<string>, other: seq<string>)
    requires AllOther(other) && AllBreakFree(other) && forall p | p in used :: IsIdent(p)
    ensures HeaderInOrder(FixedLines(filename, used, other), |used|)
  {
    var ps := Sorted(used);
    var lines := FixedLines(filename, used, other);
    forall i | 1 <= i <= |used| ensures ParamMatch(lines[i]).Some? {
      ParamLineMatches(ps[i - 1]);
    }
    BodyKeepsEverything(other);
  }

  /** Names a fix can establish: break-free, and without spaces at either end. */
  predicate UsableName(filename: string) { BreakFree(filename) && Strip(filename) == filename }

  lemma FixedIsClean(content: string, filename: string)
    requires UsableName(filename)
    ensures Complaints(Fixed(content, filename), filename) == []
  {
    var lines := SplitLines(content);
    UsedInFixed(content, filename);
    OriginalParts(content);
    FixedHeaderInOrder(filename, Used(lines), OtherOf(lines));
  }

  lemma {:induction false} DeclaredNamesAreUsable(lines: seq<string>)
    requires AllBreakFree(lines) && NameOf(lines).Some?
    ensures UsableName(NameOf(lines).value)
  {
    var line := lines[|lines| - 1];
    if NameMatch(line).Some? {
      StripIsTight(line[|NAME_PREFIX|..]);
    } else {
      DeclaredNamesAreUsable(lines[..|lines| - 1]);
    }
  }

  /** For every script, the fixed content passes every header check exactly if the file name has
      no line break in it and no space at either end. */
  lemma {:induction false} FixedPassesIff(content: string, filename: string)
    ensures Complaints(Fixed(content, filename), filename) == [] <==> UsableName(filename)
  {
    if UsableName(filename) {
      FixedIsClean(content, filename);
    } else if Complaints(Fixed(content, filename), filename) == [] {
      SplitIsBreakFree(Fixed(content, filename));
      DeclaredNamesAreUsable(SplitLines(Fixed(content, filename)));
    }
  }
}
