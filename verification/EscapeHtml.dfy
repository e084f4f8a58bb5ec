/** The HTML escaper of the e-mail templates: five global replacements, one after the other. */
module EscapeHtml {
  import opened Wrappers

  /** `s.replace(/c/g, with)` for a one-character pattern. */
  function Replace(s: string, c: char, with: string): string {
    if s == [] then [] else (if s[0] == c then with else [s[0]]) + Replace(s[1..], c, with)
  }

  function FivePasses(s: string): string {
    Replace(Replace(Replace(Replace(Replace(s,
      '&', "&amp;"), '<', "&lt;"), '>', "&gt;"), '\"', "&quot;"), '\'', "&#39;")
  }

  /** `null` and `undefined` become the empty string. */
  function Escape(s: Option<string>): string {
    if s.None? then "" else FivePasses(s.value)
  }

  /** The reference that stands for a character (section 13.1.4 of the HTML Living Standard), or
      the character itself. */
  function Reference(c: char): string {
    if c == '&' then "&amp;" else if c == '<' then "&lt;" else if c == '>' then "&gt;"
    else if c == '\"' then "&quot;" else if c == '\'' then "&#39;" else [c]
  }

  function OnePass(s: string): string {
    if s == [] then [] else Reference(s[0]) + OnePass(s[1..])
  }

  // ---------------------------------------------------------------- five passes are one

  lemma {:induction false} ReplaceConcat(s: string, t: string, c: char, with: string)
    ensures Replace(s + t, c, with) == Replace(s, c, with) + Replace(t, c, with)
  {
    if s == [] {
      assert s + t == t;
    } else {
      ReplaceConcat(s[1..], t, c, with);
      assert (s + t)[1..] == s[1..] + t;
      var head, u, v := if s[0] == c then with else [s[0]], Replace(s[1..], c, with), Replace(t, c, with);
      assert head + (u + v) == (head + u) + v;
    }
  }

  lemma {:induction false} ReplaceAbsent(s: string, c: char, with: string)
    requires c !in s
    ensures Replace(s, c, with) == s
  {
    if s == [] {
    } else {
      ReplaceAbsent(s[1..], c, with);
    }
  }

  lemma ReplaceChar(x: char, c: char, with: string)
    ensures Replace([x], c, with) == if x == c then with else [x]
  {
    assert Replace([x], c, with) == (if x == c then with else [x]) + Replace([x][1..], c, with);
  }

  lemma FivePassesConcat(s: string, t: string)
    ensures FivePasses(s + t) == FivePasses(s) + FivePasses(t)
  {
    hide Replace;
    ReplaceConcat(s, t, '&', "&amp;");
    var s1, t1 := Replace(s, '&', "&amp;"), Replace(t, '&', "&amp;");
    ReplaceConcat(s1, t1, '<', "&lt;");
    var s2, t2 := Replace(s1, '<', "&lt;"), Replace(t1, '<', "&lt;");
    ReplaceConcat(s2, t2, '>', "&gt;");
    var s3, t3 := Replace(s2, '>', "&gt;"), Replace(t2, '>', "&gt;");
    ReplaceConcat(s3, t3, '\"', "&quot;");
    var s4, t4 := Replace(s3, '\"', "&quot;"), Replace(t3, '\"', "&quot;");
    ReplaceConcat(s4, t4, '\'', "&#39;");
  }

  /** A pass leaves alone what the passes before it have made of one character. */
  lemma FivePassesChar(x: char)
    ensures FivePasses([x]) == Reference(x)
  {
    hide Replace;
    ReplaceChar(x, '&', "&amp;");
    var r1 := Replace([x], '&', "&amp;");
    if x == '<' { ReplaceChar(x, '<', "&lt;"); } else { ReplaceAbsent(r1, '<', "&lt;"); }
    var r2 := Replace(r1, '<', "&lt;");
    if x == '>' { ReplaceChar(x, '>', "&gt;"); } else { ReplaceAbsent(r2, '>', "&gt;"); }
    var r3 := Replace(r2, '>', "&gt;");
    if x == '\"' { ReplaceChar(x, '\"', "&quot;"); } else { ReplaceAbsent(r3, '\"', "&quot;"); }
    var r4 := Replace(r3, '\"', "&quot;");
    if x == '\'' { ReplaceChar(x, '\'', "&#39;"); } else { ReplaceAbsent(r4, '\'', "&#39;"); }
  }

  /** The five successive replacements are one pass that maps each character on its own. */
  lemma {:induction false} FivePassesAreOne(s: string)
    ensures FivePasses(s) == OnePass(s)
  {
    if s == [] {
    } else {
      FivePassesAreOne(s[1..]);
      assert s == [s[0]] + s[1..];
      FivePassesConcat([s[0]], s[1..]);
      FivePassesChar(s[0]);
    }
  }

  // ---------------------------------------------------------------- decoding

  /** The reference, of the five, that `s` starts with, and the character it stands for. */
  function Leading(s: string): (r: Option<(string, char)>)
    ensures r.Some? ==> r.value.0 == Reference(r.value.1) && r.value.0 <= s && |r.value.0| > 1
  {
    if "&amp;" <= s then Some(("&amp;", '&'))
    else if "&lt;" <= s then Some(("&lt;", '<'))
    else if "&gt;" <= s then Some(("&gt;", '>'))
    else if "&quot;" <= s then Some(("&quot;", '\"'))
    else if "&#39;" <= s then Some(("&#39;", '\''))
    else None
  }

  /** What a reader makes of escaped text: each of the five references is its character. */
  function Decode(s: string): string
    decreases |s|
  {
    if s == [] then []
    else
      var r := Leading(s);
      if r.None? then [s[0]] + Decode(s[1..])
      else [r.value.1] + Decode(s[|r.value.0|..])
  }

  lemma LeadingReference(c: char, rest: string)
    ensures var s := Reference(c) + rest;
            if Reference(c) == [c] then Leading(s) == None else Leading(s) == Some((Reference(c), c))
  {
    var s := Reference(c) + rest;
    if Reference(c) == [c] {
      assert s[0] == c;
    } else {
      assert Reference(c) <= s;
      assert s[1] == Reference(c)[1];
      if c == '<' || c == '>' {
        assert s[1] == if c == '<' then 'l' else 'g';
      }
    }
  }

  lemma {:induction false} DecodeOnePass(s: string)
    ensures Decode(OnePass(s)) == s
  {
    if s == [] {
    } else {
      var c, rest := s[0], OnePass(s[1..]);
      DecodeOnePass(s[1..]);
      LeadingReference(c, rest);
      var out := Reference(c) + rest;
      assert out[|Reference(c)|..] == rest;
      assert out[0] == Reference(c)[0];
    }
  }

  /** Nothing is lost: decoding the escaped text gives back the input, so two texts that differ
      never escape to the same one. A missing input escapes to nothing. */
  lemma EscapeRoundTrip(s: Option<string>)
    ensures Decode(Escape(s)) == if s.Some? then s.value else ""
    ensures Escape(s) == "" <==> s.None? || s.value == ""
  {
    if s.Some? {
      FivePassesAreOne(s.value);
      DecodeOnePass(s.value);
    }
  }

  /** The escaped text has none of the four markup characters, and every ampersand in it starts
      one of the five references. */
  lemma EscapedTextIsInert(s: string)
    ensures var out := Escape(Some(s));
            forall i :: 0 <= i < |out| ==>
              && out[i] !in {'<', '>', '\"', '\''}
              && (out[i] == '&' ==> Leading(out[i..]).Some?)
  {
    FivePassesAreOne(s);
    var out := OnePass(s);
    forall i | 0 <= i < |out|
      ensures out[i] !in {'<', '>', '\"', '\''} && (out[i] == '&' ==> Leading(out[i..]).Some?)
    {
      InertAt(s, i);
    }
  }

  lemma {:induction false} InertAt(s: string, i: nat)
    requires i < |OnePass(s)|
    ensures var out := OnePass(s);
            && out[i] !in {'<', '>', '\"', '\''}
            && (out[i] == '&' ==> Leading(out[i..]).Some?)
    decreases |s|
  {
    hide Leading;
    var c, rest := s[0], OnePass(s[1..]);
    var out := Reference(c) + rest;
    LeadingReference(c, rest);
    if i >= |Reference(c)| {
      InertAt(s[1..], i - |Reference(c)|);
      assert out[i..] == rest[i - |Reference(c)|..];
    } else {
      assert out[i] == Reference(c)[i];
      assert out[0..] == out;
    }
  }
}
