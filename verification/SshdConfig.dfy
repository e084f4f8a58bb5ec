/** The in-place edit of sshd_config: the installer's awk program that writes the Shellius block,
    and the uninstaller's sed range that removes it. A file is its sequence of lines. */
module SshdConfig {

  type Line = string

  const BEGIN_MARKER: Line := "# >>> shellius >>>"
  const END_MARKER: Line := "# <<< shellius <<<"

  predicate IsBegin(l: Line) { BEGIN_MARKER <= l }
  predicate IsEnd(l: Line) { END_MARKER <= l }
  predicate IsMarker(l: Line) { IsBegin(l) || IsEnd(l) }

  predicate IsSpace(c: char) { c in {' ', '\t', '\n', '\r', '\U{000B}', '\U{000C}'} }

  function SkipSpaces(l: Line): Line {
    if l != [] && IsSpace(l[0]) then SkipSpaces(l[1..]) else l
  }

  /** `^[[:space:]]*Match[[:space:]]` */
  predicate IsMatch(l: Line) {
    var r := SkipSpaces(l);
    "Match" <= r && |r| > 5 && IsSpace(r[5])
  }

  datatype Params = Params(ca: string, checkPrincipals: string)

  function Block(p: Params): (b: seq<Line>)
    ensures |b| == 5
  {
    [BEGIN_MARKER,
     "TrustedUserCAKeys " + p.ca,
     "AuthorizedPrincipalsCommand " + p.checkPrincipals + " validate %u %s",
     "AuthorizedPrincipalsCommandUser nobody",
     END_MARKER]
  }

  // ---------------------------------------------------------------- the awk program

  /** `in_block` after one line. */
  predicate Next(inBlock: bool, l: Line) { IsBegin(l) || (!IsEnd(l) && inBlock) }

  /** The lines awk prints of the old file, starting inside or outside a block. */
  function Survivors(inBlock: bool, ls: seq<Line>): seq<Line>
    decreases |ls|
  {
    if ls == [] then []
    else if IsBegin(ls[0]) then Survivors(true, ls[1..])
    else if IsEnd(ls[0]) then Survivors(false, ls[1..])
    else if inBlock then Survivors(true, ls[1..])
    else [ls[0]] + Survivors(false, ls[1..])
  }

  /** `in_block` after the lines have been read. */
  function InBlockAfter(inBlock: bool, ls: seq<Line>): bool
    decreases |ls|
  {
    if ls == [] then inBlock
    else InBlockAfter(Next(inBlock, ls[0]), ls[1..])
  }

  /** The block goes before the first `Match` line, or at the end. */
  function Splice(block: seq<Line>, ls: seq<Line>): seq<Line> {
    if ls == [] then block
    else if IsMatch(ls[0]) then block + ls
    else [ls[0]] + Splice(block, ls[1..])
  }

  function Rewrite(p: Params, ls: seq<Line>): seq<Line> { Splice(Block(p), Survivors(false, ls)) }

  /** What awk has still to print of the lines `ls`. */
  ghost function Rest(p: Params, inserted: bool, inBlock: bool, ls: seq<Line>): seq<Line> {
    var kept := Survivors(inBlock, ls);
    if inserted then kept else Splice(Block(p), kept)
  }

  lemma RestStep(p: Params, inserted: bool, inBlock: bool, ls: seq<Line>)
    requires ls != []
    ensures var l := ls[0];
            Rest(p, inserted, inBlock, ls) ==
            if IsMarker(l) || inBlock then Rest(p, inserted, Next(inBlock, l), ls[1..])
            else if IsMatch(l) && !inserted then Block(p) + ([l] + Rest(p, true, false, ls[1..]))
            else [l] + Rest(p, inserted, false, ls[1..])
  {
    hide Block, IsMatch, IsBegin, IsEnd;
    var l, kept := ls[0], Survivors(inBlock, ls);
    if !IsMarker(l) && !inBlock {
      assert kept[0] == l && kept[1..] == Survivors(false, ls[1..]);
    }
  }

  /** `write_inline`. */
  method WriteInline(p: Params, ls: seq<Line>) returns (out: seq<Line>)
    ensures out == Rewrite(p, ls)
  {
    hide Rest, Block, IsMatch, IsBegin, IsEnd, Rewrite, Survivors;
    ghost var target := Rest(p, false, false, ls);
    assert ls[0..] == ls;
    var inserted, inBlock := false, false;
    out := [];
    var i := 0;
    while i < |ls|
      invariant 0 <= i <= |ls|
      invariant out + Rest(p, inserted, inBlock, ls[i..]) == target
    {
      var l := ls[i];
      assert ls[i..][1..] == ls[i + 1..];
      RestStep(p, inserted, inBlock, ls[i..]);
      if IsBegin(l) {
        inBlock := true;
      } else if IsEnd(l) {
        inBlock := false;
      } else if !inBlock {
        ghost var rest := Rest(p, true, false, ls[i + 1..]);
        Reassociate(out, Block(p), [l], rest);
        Reassociate(out, [], [l], Rest(p, inserted, false, ls[i + 1..]));
        if IsMatch(l) && !inserted {
          out := out + Block(p);
          inserted := true;
        }
        out := out + [l];
      }
      i := i + 1;
    }
    assert ls[i..] == [];
    RestOfNothing(p, inserted, inBlock, ls);
    if !inserted {
      out := out + Block(p);
    }
  }

  lemma RestOfNothing(p: Params, inserted: bool, inBlock: bool, ls: seq<Line>)
    ensures Rest(p, inserted, inBlock, []) == if inserted then [] else Block(p)
    ensures Rest(p, false, false, ls) == Rewrite(p, ls)
  {
  }

  // ---------------------------------------------------------------- the sed range

  /** `/begin/,/end/d`: a range runs from a begin line to the next end line, or to the end of the
      file; everything else is kept, end markers outside a range included. */
  function Strip(inRange: bool, ls: seq<Line>): seq<Line>
    decreases |ls|
  {
    if ls == [] then []
    else if inRange then Strip(!IsEnd(ls[0]), ls[1..])
    else if IsBegin(ls[0]) then Strip(true, ls[1..])
    else [ls[0]] + Strip(false, ls[1..])
  }

  ghost predicate NoMarkers(ls: seq<Line>) { forall i :: 0 <= i < |ls| ==> !IsMarker(ls[i]) }
  ghost predicate NoBegins(ls: seq<Line>) { forall i :: 0 <= i < |ls| ==> !IsBegin(ls[i]) }
  ghost predicate NoMatches(ls: seq<Line>) { forall i :: 0 <= i < |ls| ==> !IsMatch(ls[i]) }

  lemma {:induction false} StripNothing(ls: seq<Line>)
    requires NoBegins(ls)
    ensures Strip(false, ls) == ls
  {
    if ls == [] {
    } else {
      StripNothing(ls[1..]);
    }
  }

  /** The uninstaller's step: only a file that has a begin marker is edited at all. */
  method StripInline(ls: seq<Line>) returns (out: seq<Line>)
    ensures out == Strip(false, ls)
  {
    if !(exists i :: 0 <= i < |ls| && IsBegin(ls[i])) {
      StripNothing(ls);
      return ls;
    }
    out := [];
    var inRange, i := false, 0;
    while i < |ls|
      invariant 0 <= i <= |ls|
      invariant out + Strip(inRange, ls[i..]) == Strip(false, ls)
    {
      assert ls[i..][1..] == ls[i + 1..];
      if inRange {
        inRange := !IsEnd(ls[i]);
      } else if IsBegin(ls[i]) {
        inRange := true;
      } else {
        out := out + [ls[i]];
      }
      i := i + 1;
    }
  }

  // ---------------------------------------------------------------- what the rewrite leaves

  lemma BlockMarkers(p: Params)
    ensures forall i :: 0 <= i < 5 ==> (IsBegin(Block(p)[i]) <==> i == 0) && (IsEnd(Block(p)[i]) <==> i == 4)
    ensures NoMatches(Block(p))
  {
    var b := Block(p);
    assert b[1][0] == 'T' && b[2][0] == 'A' && b[3][0] == 'A' && b[0][0] == '#' && b[4][0] == '#';
    assert END_MARKER[2] == '<' && BEGIN_MARKER[2] == '>';
    forall i | 0 <= i < 5 ensures !IsMatch(b[i]) {
      assert SkipSpaces(b[i]) == b[i];
    }
  }

  lemma {:induction false} SurvivorsConcat(inBlock: bool, xs: seq<Line>, ys: seq<Line>)
    ensures Survivors(inBlock, xs + ys) == Survivors(inBlock, xs) + Survivors(InBlockAfter(inBlock, xs), ys)
    ensures InBlockAfter(inBlock, xs + ys) == InBlockAfter(InBlockAfter(inBlock, xs), ys)
    decreases |xs|
  {
    if xs == [] {
      assert xs + ys == ys;
    } else {
      var next := Next(inBlock, xs[0]);
      assert (xs + ys)[1..] == xs[1..] + ys;
      SurvivorsConcat(next, xs[1..], ys);
    }
  }

  lemma {:induction false} SurvivorsOfPlain(ls: seq<Line>)
    requires NoMarkers(ls)
    ensures Survivors(false, ls) == ls && !InBlockAfter(false, ls)
  {
    if ls == [] {
    } else {
      SurvivorsOfPlain(ls[1..]);
    }
  }

  lemma {:induction false} SurvivorsArePlain(inBlock: bool, ls: seq<Line>)
    ensures NoMarkers(Survivors(inBlock, ls))
    ensures |Survivors(inBlock, ls)| <= |ls|
    ensures |Survivors(inBlock, ls)| == |ls| ==> NoMarkers(ls)
    decreases |ls|
  {
    if ls == [] {
    } else {
      SurvivorsArePlain(Next(inBlock, ls[0]), ls[1..]);
    }
  }

  lemma Reassociate(a: seq<Line>, b: seq<Line>, c: seq<Line>, d: seq<Line>)
    ensures a + (b + (c + d)) == ((a + b) + c) + d
    ensures a + ((b + c) + d) == ((a + b) + c) + d
  {
  }

  lemma {:induction false} SpliceShape(block: seq<Line>, ls: seq<Line>) returns (pre: seq<Line>, post: seq<Line>)
    ensures Splice(block, ls) == pre + block + post && ls == pre + post
    ensures NoMatches(pre) && (post != [] ==> IsMatch(post[0]))
  {
    hide IsMatch;
    if ls == [] || IsMatch(ls[0]) {
      pre, post := [], ls;
    } else {
      var q;
      q, post := SpliceShape(block, ls[1..]);
      pre := [ls[0]] + q;
      Reassociate([ls[0]], q, block, post);
      assert ls == [ls[0]] + ls[1..] == pre + post;
      forall i | 0 <= i < |pre| ensures !IsMatch(pre[i]) {
        if i > 0 {
          assert pre[i] == q[i - 1];
        }
      }
    }
  }

  /** The rewritten file is the surviving lines, in order, with one block put among them: before
      the first `Match` line if there is one, otherwise last. It holds exactly one begin and one
      end marker, whatever stray or unterminated markers the old file had. */
  lemma RewriteShape(p: Params, ls: seq<Line>) returns (pre: seq<Line>, post: seq<Line>)
    ensures Rewrite(p, ls) == pre + Block(p) + post && pre + post == Survivors(false, ls)
    ensures NoMarkers(pre) && NoMarkers(post)
    ensures NoMatches(pre) && (post != [] ==> IsMatch(post[0]))
    ensures forall i :: 0 <= i < |Rewrite(p, ls)| ==>
              && (IsBegin(Rewrite(p, ls)[i]) <==> i == |pre|)
              && (IsEnd(Rewrite(p, ls)[i]) <==> i == |pre| + 4)
  {
    var kept := Survivors(false, ls);
    pre, post := SpliceShape(Block(p), kept);
    SurvivorsArePlain(false, ls);
    BlockMarkers(p);
    assert forall i :: 0 <= i < |pre| ==> pre[i] == kept[i];
    assert forall i :: 0 <= i < |post| ==> post[i] == kept[|pre| + i];
  }

  lemma SurvivorsOfBlock(p: Params)
    ensures Survivors(false, Block(p)) == [] && !InBlockAfter(false, Block(p))
  {
    var b := Block(p);
    BlockMarkers(p);
    assert b == [b[0]] + ([b[1]] + ([b[2]] + ([b[3]] + [b[4]])));
    SurvivorsConcat(false, [b[0]], [b[1]] + ([b[2]] + ([b[3]] + [b[4]])));
    SurvivorsConcat(true, [b[1]], [b[2]] + ([b[3]] + [b[4]]));
    SurvivorsConcat(true, [b[2]], [b[3]] + [b[4]]);
    SurvivorsConcat(true, [b[3]], [b[4]]);
    assert InBlockAfter(true, [b[1]]) && InBlockAfter(true, [b[2]]) && InBlockAfter(true, [b[3]]);
  }

  /** A rewrite survives as the remainder of the file it was made from. */
  lemma SurvivorsOfRewrite(p: Params, ls: seq<Line>)
    ensures Survivors(false, Rewrite(p, ls)) == Survivors(false, ls)
  {
    var pre, post := RewriteShape(p, ls);
    SurvivorsConcat(false, pre + Block(p), post);
    SurvivorsConcat(false, pre, Block(p));
    SurvivorsOfPlain(pre);
    SurvivorsOfPlain(post);
    SurvivorsOfBlock(p);
  }

  /** Rewriting with new parameters over an old rewrite is the new rewrite of the original; with
      the same parameters, rewriting twice is rewriting once. */
  lemma RewriteReplaces(p: Params, q: Params, ls: seq<Line>)
    ensures Rewrite(q, Rewrite(p, ls)) == Rewrite(q, ls)
  {
    SurvivorsOfRewrite(p, ls);
  }

  // ---------------------------------------------------------------- which lines survive

  /** Line `i` lies in a block: a begin marker comes before it with no end marker between. */
  ghost predicate Enclosed(ls: seq<Line>, i: nat)
    requires i <= |ls|
  {
    exists j :: 0 <= j < i && IsBegin(ls[j]) && forall k :: j < k < i ==> !IsEnd(ls[k])
  }

  ghost function Unenclosed(ls: seq<Line>, n: nat): seq<Line>
    requires n <= |ls|
  {
    if n == 0 then []
    else Unenclosed(ls, n - 1) + if !IsMarker(ls[n - 1]) && !Enclosed(ls, n - 1) then [ls[n - 1]] else []
  }

  lemma MarkersDisjoint(l: Line)
    ensures !(IsBegin(l) && IsEnd(l))
  {
    assert BEGIN_MARKER[2] != END_MARKER[2];
  }

  /** The automaton against the direct definition: the lines kept are exactly those that are no
      marker and lie in no block. */
  lemma {:induction false} SurvivorsAreUnenclosed(ls: seq<Line>, n: nat)
    requires n <= |ls|
    ensures Survivors(false, ls[..n]) == Unenclosed(ls, n)
    ensures InBlockAfter(false, ls[..n]) <==> Enclosed(ls, n)
  {
    if n == 0 {
    } else {
      var l := ls[n - 1];
      SurvivorsAreUnenclosed(ls, n - 1);
      MarkersDisjoint(l);
      assert ls[..n] == ls[..n - 1] + [l];
      SurvivorsConcat(false, ls[..n - 1], [l]);
      EnclosedStep(ls, n);
    }
  }

  lemma EnclosedStep(ls: seq<Line>, n: nat)
    requires 0 < n <= |ls|
    ensures Enclosed(ls, n) <==> !IsEnd(ls[n - 1]) && (IsBegin(ls[n - 1]) || Enclosed(ls, n - 1))
  {
    MarkersDisjoint(ls[n - 1]);
    if IsBegin(ls[n - 1]) {
      assert Enclosed(ls, n);
    } else if !IsEnd(ls[n - 1]) && Enclosed(ls, n - 1) {
      var j :| 0 <= j < n - 1 && IsBegin(ls[j]) && forall k :: j < k < n - 1 ==> !IsEnd(ls[k]);
      assert forall k :: j < k < n ==> !IsEnd(ls[k]);
    }
  }

  // ---------------------------------------------------------------- sed against awk

  function DropEnds(ls: seq<Line>): seq<Line> {
    if ls == [] then [] else (if IsEnd(ls[0]) then [] else [ls[0]]) + DropEnds(ls[1..])
  }

  ghost predicate NoEnds(ls: seq<Line>) { forall i :: 0 <= i < |ls| ==> !IsEnd(ls[i]) }

  /** On every file the two automata differ in stray end markers only: sed keeps them. */
  lemma {:induction false} StripAgainstSurvivors(inBlock: bool, ls: seq<Line>)
    ensures DropEnds(Strip(inBlock, ls)) == Survivors(inBlock, ls)
    decreases |ls|
  {
    if ls == [] {
    } else {
      MarkersDisjoint(ls[0]);
      if inBlock {
        StripAgainstSurvivors(!IsEnd(ls[0]), ls[1..]);
      } else if IsBegin(ls[0]) {
        StripAgainstSurvivors(true, ls[1..]);
      } else {
        StripAgainstSurvivors(false, ls[1..]);
        var s := Strip(false, ls);
        assert s[1..] == Strip(false, ls[1..]);
      }
    }
  }

  lemma {:induction false} DropEndsFixes(ls: seq<Line>)
    ensures |DropEnds(ls)| <= |ls|
    ensures DropEnds(ls) == ls <==> NoEnds(ls)
  {
    if ls == [] {
    } else {
      DropEndsFixes(ls[1..]);
      if NoEnds(ls) {
        assert NoEnds(ls[1..]);
      } else if !IsEnd(ls[0]) {
        var i :| 0 <= i < |ls| && IsEnd(ls[i]);
        assert IsEnd(ls[1..][i - 1]);
        assert DropEnds(ls)[1..] == DropEnds(ls[1..]);
      }
    }
  }

  /** Every end marker closes a block. */
  ghost predicate EndsClose(inBlock: bool, ls: seq<Line>)
    decreases |ls|
  {
    ls == [] || ((IsEnd(ls[0]) ==> inBlock) && EndsClose(Next(inBlock, ls[0]), ls[1..]))
  }

  lemma {:induction false} StrayEndsStay(inBlock: bool, ls: seq<Line>)
    ensures NoEnds(Strip(inBlock, ls)) <==> EndsClose(inBlock, ls)
    decreases |ls|
  {
    if ls == [] {
    } else {
      MarkersDisjoint(ls[0]);
      var next := Next(inBlock, ls[0]);
      StrayEndsStay(next, ls[1..]);
      if !inBlock && !IsBegin(ls[0]) {
        var s, t := Strip(false, ls), Strip(false, ls[1..]);
        assert s[0] == ls[0] && s[1..] == t;
        if NoEnds(s) {
          assert forall i :: 0 <= i < |t| ==> t[i] == s[i + 1];
        }
      }
    }
  }

  /** Sed removes exactly what awk would replace if and only if every end marker closes a block. */
  lemma StripIsSurvivors(ls: seq<Line>)
    ensures Strip(false, ls) == Survivors(false, ls) <==> EndsClose(false, ls)
  {
    StripAgainstSurvivors(false, ls);
    DropEndsFixes(Strip(false, ls));
    StrayEndsStay(false, ls);
  }

  // ---------------------------------------------------------------- install and uninstall

  /** The file after a series of inline installs. */
  function Installed(ps: seq<Params>, ls: seq<Line>): seq<Line>
    decreases |ps|
  {
    if ps == [] then ls else Rewrite(ps[|ps| - 1], Installed(ps[..|ps| - 1], ls))
  }

  lemma {:induction false} StripConcat(xs: seq<Line>, ys: seq<Line>)
    requires NoBegins(xs)
    ensures Strip(false, xs + ys) == xs + Strip(false, ys)
  {
    if xs == [] {
      assert xs + ys == ys;
    } else {
      assert (xs + ys)[1..] == xs[1..] + ys;
      StripConcat(xs[1..], ys);
    }
  }

  lemma {:induction false} StripInside(xs: seq<Line>, ys: seq<Line>)
    requires NoEnds(xs)
    ensures Strip(true, xs + ys) == Strip(true, ys)
  {
    if xs == [] {
      assert xs + ys == ys;
    } else {
      assert (xs + ys)[1..] == xs[1..] + ys;
      StripInside(xs[1..], ys);
    }
  }

  lemma StripBlock(p: Params, post: seq<Line>)
    ensures Strip(false, Block(p) + post) == Strip(false, post)
  {
    BlockMarkers(p);
    var b := Block(p);
    hide Block, IsBegin, IsEnd;
    var middle := b[1..4];
    assert (b + post)[1..] == middle + ([b[4]] + post);
    StripInside(middle, [b[4]] + post);
    assert ([b[4]] + post)[1..] == post;
    MarkersDisjoint(b[0]);
  }

  lemma StripRewrite(p: Params, ls: seq<Line>)
    ensures Strip(false, Rewrite(p, ls)) == Survivors(false, ls)
  {
    hide Rewrite, Block, Survivors, IsMatch, IsBegin, IsEnd;
    var pre, post := RewriteShape(p, ls);
    assert Rewrite(p, ls) == pre + (Block(p) + post);
    StripConcat(pre, Block(p) + post);
    StripBlock(p, post);
    StripNothing(post);
  }

  lemma {:induction false} InstalledSurvivors(ps: seq<Params>, ls: seq<Line>)
    ensures Survivors(false, Installed(ps, ls)) == Survivors(false, ls)
    decreases |ps|
  {
    if ps == [] {
    } else {
      InstalledSurvivors(ps[..|ps| - 1], ls);
      SurvivorsOfRewrite(ps[|ps| - 1], Installed(ps[..|ps| - 1], ls));
    }
  }

  /** Any number of installs, then the uninstaller: what is left is the marker-free remainder of
      the original file, and that is the original file if and only if it had no marker lines. */
  lemma InstallUninstall(ps: seq<Params>, ls: seq<Line>)
    requires ps != []
    ensures Strip(false, Installed(ps, ls)) == Survivors(false, ls) == Unenclosed(ls, |ls|)
    ensures Strip(false, Installed(ps, ls)) == ls <==> NoMarkers(ls)
  {
    var before := Installed(ps[..|ps| - 1], ls);
    InstalledSurvivors(ps[..|ps| - 1], ls);
    StripRewrite(ps[|ps| - 1], before);
    assert ls[..|ls|] == ls;
    SurvivorsAreUnenclosed(ls, |ls|);
    SurvivorsArePlain(false, ls);
    if NoMarkers(ls) {
      SurvivorsOfPlain(ls);
    }
  }

  // ---------------------------------------------------------------- what sshd reads

  /** The lines of the first block, without its markers. */
  function Enclosure(ls: seq<Line>): seq<Line> {
    if ls == [] then []
    else if IsBegin(ls[0]) then BeforeEnd(ls[1..])
    else Enclosure(ls[1..])
  }

  function BeforeEnd(ls: seq<Line>): seq<Line> {
    if ls == [] || IsEnd(ls[0]) then [] else [ls[0]] + BeforeEnd(ls[1..])
  }

  /** The value of the first line that sets `keyword`. */
  function Directive(ls: seq<Line>, keyword: string): string {
    if ls == [] then ""
    else if keyword + " " <= ls[0] then ls[0][|keyword| + 1..]
    else Directive(ls[1..], keyword)
  }

  lemma {:induction false} EnclosureSkips(pre: seq<Line>, ls: seq<Line>)
    requires NoMarkers(pre)
    ensures Enclosure(pre + ls) == Enclosure(ls)
  {
    if pre == [] {
      assert pre + ls == ls;
    } else {
      assert (pre + ls)[1..] == pre[1..] + ls;
      assert IsMarker(pre[0]) == false;
      EnclosureSkips(pre[1..], ls);
    }
  }

  lemma Hit(keyword: string, value: string, rest: seq<Line>)
    ensures Directive([keyword + " " + value] + rest, keyword) == value
  {
    var l := keyword + " " + value;
    assert ([l] + rest)[0] == l && l[|keyword| + 1..] == value;
    assert keyword + " " <= l;
  }

  lemma Miss(l: Line, rest: seq<Line>, keyword: string)
    requires !(keyword + " " <= l)
    ensures Directive([l] + rest, keyword) == Directive(rest, keyword)
  {
    assert ([l] + rest)[0] == l && ([l] + rest)[1..] == rest;
  }

  function Body(ca: string, command: string): seq<Line> {
    ["TrustedUserCAKeys" + " " + ca] + (["AuthorizedPrincipalsCommand" + " " + command]
                                        + (["AuthorizedPrincipalsCommandUser" + " " + "nobody"] + []))
  }

  /** The keywords do not get in each other's way. */
  lemma BodyReads(ca: string, command: string)
    ensures Directive(Body(ca, command), "TrustedUserCAKeys") == ca
    ensures Directive(Body(ca, command), "AuthorizedPrincipalsCommand") == command
    ensures Directive(Body(ca, command), "AuthorizedPrincipalsCommandUser") == "nobody"
  {
    var k1, k2, k3 := "TrustedUserCAKeys", "AuthorizedPrincipalsCommand", "AuthorizedPrincipalsCommandUser";
    var l1, l2, l3 := k1 + " " + ca, k2 + " " + command, k3 + " " + "nobody";
    var r3: seq<Line> := [l3] + [];
    var r2 := [l2] + r3;
    assert Body(ca, command) == [l1] + r2;
    assert l1[0] == 'T' && (k2 + " ")[0] == 'A' && (k3 + " ")[0] == 'A';
    assert l2[27] == ' ' && (k3 + " ")[27] == 'U';
    hide Directive;
    Hit(k1, ca, r2);
    Miss(l1, r2, k2);
    Hit(k2, command, r3);
    Miss(l1, r2, k3);
    Miss(l2, r3, k3);
    Hit(k3, "nobody", []);
  }

  lemma {:induction false} BeforeEndStops(body: seq<Line>, end: Line, rest: seq<Line>)
    requires IsEnd(end) && NoMarkers(body)
    ensures BeforeEnd(body + ([end] + rest)) == body
  {
    var ls := body + ([end] + rest);
    if body == [] {
      assert ls[0] == end;
    } else {
      assert ls[0] == body[0] && ls[1..] == body[1..] + ([end] + rest);
      assert !IsMarker(body[0]);
      BeforeEndStops(body[1..], end, rest);
    }
  }

  lemma JoinAssociates(a: string, b: string, c: string)
    ensures a + (b + c) == (a + b) + c
  {
  }

  lemma BlockIsBody(p: Params)
    ensures Block(p)[1..4] == Body(p.ca, p.checkPrincipals + " validate %u %s")
  {
    var keyword := "AuthorizedPrincipalsCommand";
    JoinAssociates(keyword + " ", p.checkPrincipals, " validate %u %s");
    var b, c := Block(p), Body(p.ca, p.checkPrincipals + " validate %u %s");
    assert "TrustedUserCAKeys" + " " == "TrustedUserCAKeys ";
    assert keyword + " " == "AuthorizedPrincipalsCommand ";
    assert "AuthorizedPrincipalsCommandUser" + " " + "nobody" == "AuthorizedPrincipalsCommandUser nobody";
    assert b[1] == c[0];
    assert b[2] == c[1];
    assert b[3] == c[2];
  }

  lemma BlockEncloses(p: Params, post: seq<Line>)
    ensures Enclosure(Block(p) + post) == Body(p.ca, p.checkPrincipals + " validate %u %s")
  {
    BlockMarkers(p);
    var body := Block(p)[1..4];
    BlockIsBody(p);
    var ls := Block(p) + post;
    assert ls[0] == Block(p)[0] && ls[1..] == body + ([Block(p)[4]] + post);
    assert forall i :: 0 <= i < |body| ==> body[i] == Block(p)[i + 1];
    hide Block, IsBegin, IsEnd;
    BeforeEndStops(body, Block(p)[4], post);
  }

  /** For every file, the block that is written trusts the given key file, and runs the given
      program on users and serials as nobody: the parameters come back out of it. */
  lemma RewriteReads(p: Params, ls: seq<Line>)
    ensures var block := Enclosure(Rewrite(p, ls));
            && |block| == 3
            && Directive(block, "TrustedUserCAKeys") == p.ca
            && Directive(block, "AuthorizedPrincipalsCommand") == p.checkPrincipals + " validate %u %s"
            && Directive(block, "AuthorizedPrincipalsCommandUser") == "nobody"
  {
    hide Rewrite, Directive, Enclosure, Block;
    var pre, post := RewriteShape(p, ls);
    assert pre + Block(p) + post == pre + (Block(p) + post);
    EnclosureSkips(pre, Block(p) + post);
    BlockEncloses(p, post);
    BodyReads(p.ca, p.checkPrincipals + " validate %u %s");
  }

  /** The word `Match` stands at `i`, between blanks. */
  ghost predicate MatchAt(l: Line, i: int) {
    0 <= i && i + 5 < |l| && (forall j :: 0 <= j < i ==> IsSpace(l[j])) && l[i..i + 5] == "Match" && IsSpace(l[i + 5])
  }

  lemma MatchShifts(l: Line, i: int)
    requires l != [] && IsSpace(l[0])
    ensures MatchAt(l[1..], i) ==> MatchAt(l, i + 1)
    ensures MatchAt(l, i) ==> MatchAt(l[1..], i - 1)
  {
    if MatchAt(l[1..], i) {
      assert l[i + 1..i + 1 + 5] == l[1..][i..i + 5];
      assert forall j :: 0 < j < i + 1 ==> l[j] == l[1..][j - 1];
    }
    if MatchAt(l, i) {
      assert l[i..i + 5][0] == l[i] == 'M';
      assert l[1..][i - 1..i - 1 + 5] == l[i..i + 5];
      assert forall j :: 0 <= j < i - 1 ==> l[1..][j] == l[j + 1];
    }
  }

  /** A `Match` line is blanks, the word, a blank, and anything. */
  lemma {:induction false} MatchLineIff(l: Line)
    ensures IsMatch(l) <==> exists i :: MatchAt(l, i)
  {
    if l == [] {
    } else if IsSpace(l[0]) {
      MatchLineIff(l[1..]);
      hide MatchAt;
      if IsMatch(l) {
        var i :| MatchAt(l[1..], i);
        MatchShifts(l, i);
      }
      if i :| MatchAt(l, i) {
        MatchShifts(l, i);
      }
    } else {
      if i :| MatchAt(l, i) {
        assert i == 0 && l[0..0 + 5] == "Match";
      }
      if IsMatch(l) {
        assert l[0..0 + 5] == "Match";
        assert MatchAt(l, 0);
      }
    }
  }
}
