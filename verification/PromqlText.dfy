/** The text functions that the PromQL scanners use, and what splitting, joining and trimming undo. */
module PromqlText {

  /** strings.Index: where `sub` first occurs, or -1. */
  function IndexOf(s: string, sub: string): (r: int)
    ensures -1 <= r && (r != -1 ==> r + |sub| <= |s|)
  {
    if sub <= s then 0
    else if s == "" then -1
    else
      var r := IndexOf(s[1..], sub);
      if r == -1 then -1 else r + 1
  }

  predicate Contains(s: string, sub: string) {
    IndexOf(s, sub) != -1
  }

  /** strings.Split. */
  function Split(s: string, sep: string): (parts: seq<string>)
    requires sep != ""
    ensures parts != []
    decreases |s|
  {
    var i := IndexOf(s, sep);
    if i == -1 then [s] else [s[..i]] + Split(s[i + |sep|..], sep)
  }

  /** strings.Join with commas. */
  function Body(ms: seq<string>): string {
    if ms == [] then "" else if |ms| == 1 then ms[0] else ms[0] + "," + Body(ms[1..])
  }

  /** The characters that strings.TrimSpace removes. */
  const SPACE: set<char> := {
    ' ', '\t', '\n', '\U{000B}', '\U{000C}', '\r', '\U{0085}', '\U{00A0}', '\U{1680}',
    '\U{2000}', '\U{2001}', '\U{2002}', '\U{2003}', '\U{2004}', '\U{2005}', '\U{2006}', '\U{2007}', '\U{2008}',
    '\U{2009}', '\U{200A}', '\U{2028}', '\U{2029}', '\U{202F}', '\U{205F}', '\U{3000}'
  }

  /** ... are the ones Unicode calls white space. */
  lemma SpaceIsWhite(c: char)
    ensures c in SPACE <==>
            || 0x9 <= c as int <= 0xD || c as int in {0x20, 0x85, 0xA0, 0x1680, 0x202F, 0x205F, 0x3000}
            || 0x2000 <= c as int <= 0x200A || 0x2028 <= c as int <= 0x2029
  {
  }

  function TrimLeft(s: string, cut: set<char>): string {
    if s != "" && s[0] in cut then TrimLeft(s[1..], cut) else s
  }

  function TrimRight(s: string, cut: set<char>): string {
    if s != "" && s[|s| - 1] in cut then TrimRight(s[..|s| - 1], cut) else s
  }

  /** strings.Trim. */
  function Trim(s: string, cut: set<char>): string {
    TrimRight(TrimLeft(s, cut), cut)
  }

  // ----------------------------------------------------------- finding

  lemma {:induction false} FoundAt(a: string, sub: string, b: string)
    requires sub != "" && sub[0] !in a
    ensures IndexOf(a + sub + b, sub) == |a|
  {
    var s := a + sub + b;
    if a == "" {
      assert s == sub + b;
    } else {
      assert s[0] == a[0];
      assert s[1..] == a[1..] + sub + b;
      FoundAt(a[1..], sub, b);
    }
  }

  lemma {:induction false} NotFound(s: string, sub: string, c: char)
    requires c in sub && c !in s
    ensures IndexOf(s, sub) == -1
  {
    if s == "" {
    } else {
      NotFound(s[1..], sub, c);
    }
  }

  /** The index of a character is its first position, or -1 if it does not occur. */
  lemma {:induction false} CharIndex(s: string, c: char)
    ensures var r := IndexOf(s, [c]);
            if r == -1 then c !in s else r < |s| && s[r] == c && c !in s[..r]
  {
    if s == "" || s[0] == c {
    } else {
      CharIndex(s[1..], c);
      var r := IndexOf(s[1..], [c]);
      if r != -1 { assert s[..r + 1] == [s[0]] + s[1..][..r]; }
    }
  }

  /** Cutting a text at the first occurrence of a character. */
  lemma CutAt(s: string, c: char) returns (head: string, tail: string)
    requires c in s
    ensures c !in head && s == head + [c] + tail
  {
    var i := IndexOf(s, [c]);
    CharIndex(s, c);
    head, tail := s[..i], s[i + 1..];
  }

  // ----------------------------------------------------------- splitting and joining

  lemma SplitInTwo(a: string, sep: string, b: string, c: char)
    requires sep != "" && sep[0] !in a && c in sep && c !in b
    ensures Split(a + sep + b, sep) == [a, b]
  {
    var s := a + sep + b;
    FoundAt(a, sep, b);
    assert s[..|a|] == a && s[|a| + |sep|..] == b;
    NotFound(b, sep, c);
  }

  /** Splitting undoes joining. */
  lemma {:induction false} SplitBody(ms: seq<string>)
    requires ms != [] && forall m <- ms :: ',' !in m
    ensures Split(Body(ms), ",") == ms
  {
    var m := ms[0];
    assert m in ms;
    if |ms| == 1 {
      NotFound(m, ",", ',');
    } else {
      var rest := Body(ms[1..]);
      FoundAt(m, ",", rest);
      assert Body(ms)[..|m|] == m && Body(ms)[|m| + 1..] == rest;
      SplitBody(ms[1..]);
    }
  }

  /** Joining undoes splitting, and the parts hold no comma. */
  lemma {:induction false} BodySplit(s: string)
    ensures Body(Split(s, ",")) == s && forall m <- Split(s, ",") :: ',' !in m
    decreases |s|
  {
    var i := IndexOf(s, ",");
    CharIndex(s, ',');
    if i == -1 {
      assert Split(s, ",") == [s];
    } else {
      var head, rest := s[..i], s[i + 1..];
      BodySplit(rest);
      var ps := Split(rest, ",");
      assert Split(s, ",") == [head] + ps && ([head] + ps)[1..] == ps;
      assert s == head + "," + rest;
    }
  }

  lemma {:induction false} SplitChars(s: string, sep: string, c: char)
    requires sep != "" && c !in s
    ensures forall part <- Split(s, sep) :: c !in part
    decreases |s|
  {
    var i := IndexOf(s, sep);
    if i != -1 {
      SplitChars(s[i + |sep|..], sep, c);
    }
  }

  lemma {:induction false} BodyAppend(ms: seq<string>, m: string)
    ensures Body(ms + [m]) == if ms == [] then m else Body(ms) + "," + m
  {
    if ms == [] {
    } else {
      assert (ms + [m])[1..] == ms[1..] + [m];
      BodyAppend(ms[1..], m);
      if |ms| > 1 {
        assert ms[0] + "," + (Body(ms[1..]) + "," + m) == Body(ms) + "," + m;
      }
    }
  }

  lemma {:induction false} BodyChars(ms: seq<string>, c: char)
    requires c != ',' && forall m <- ms :: c !in m
    ensures c !in Body(ms)
  {
    if ms == [] {
    } else {
      assert ms[0] in ms;
      if |ms| > 1 { BodyChars(ms[1..], c); }
    }
  }

  lemma BodyExtend(front: seq<string>, last: string, m: string)
    ensures Body(front + [last + m]) == Body(front + [last]) + m
  {
    BodyAppend(front, last);
    BodyAppend(front, last + m);
    if front != [] {
      assert Body(front) + "," + (last + m) == Body(front) + "," + last + m;
    }
  }

  /** Text without a comma goes to the last part. */
  lemma SplitExtend(s: string, m: string)
    requires ',' !in m
    ensures var ps := Split(s, ","); Split(s + m, ",") == ps[..|ps| - 1] + [ps[|ps| - 1] + m]
  {
    var ps := Split(s, ",");
    var front, last := ps[..|ps| - 1], ps[|ps| - 1];
    BodySplit(s);
    assert ps == front + [last] && last in ps;
    BodyExtend(front, last, m);
    forall p <- front + [last + m] ensures ',' !in p {
      assert p in ps || p == last + m;
    }
    SplitBody(front + [last + m]);
  }

  /** A comma opens a new part. */
  lemma SplitAppend(s: string, m: string)
    requires ',' !in m
    ensures Split(s + "," + m, ",") == Split(s, ",") + [m]
  {
    var ps := Split(s, ",");
    BodySplit(s);
    BodyAppend(ps, m);
    SplitBody(ps + [m]);
  }

  // ----------------------------------------------------------- trimming

  lemma {:induction false} TrimLeftChars(s: string, cut: set<char>, c: char)
    requires c !in s
    ensures c !in TrimLeft(s, cut)
  {
    if s != "" && s[0] in cut { TrimLeftChars(s[1..], cut, c); }
  }

  lemma {:induction false} TrimRightChars(s: string, cut: set<char>, c: char)
    requires c !in s
    ensures c !in TrimRight(s, cut)
  {
    if s != "" && s[|s| - 1] in cut { TrimRightChars(s[..|s| - 1], cut, c); }
  }

  lemma TrimChars(s: string, cut: set<char>, c: char)
    requires c !in s
    ensures c !in Trim(s, cut)
  {
    TrimLeftChars(s, cut, c);
    TrimRightChars(TrimLeft(s, cut), cut, c);
  }

  /** Neither end is to be cut. */
  predicate Firm(s: string, cut: set<char>) {
    s == "" || (s[0] !in cut && s[|s| - 1] !in cut)
  }

  predicate Loose(s: string, cut: set<char>) {
    forall c <- s :: c in cut
  }

  lemma {:induction false} TrimLeftPad(pad: string, s: string, cut: set<char>)
    requires Loose(pad, cut)
    ensures TrimLeft(pad + s, cut) == TrimLeft(s, cut)
  {
    if pad == "" {
      assert pad + s == s;
    } else {
      assert pad[0] in pad && (pad + s)[1..] == pad[1..] + s;
      TrimLeftPad(pad[1..], s, cut);
    }
  }

  lemma {:induction false} TrimRightPad(s: string, pad: string, cut: set<char>)
    requires Loose(pad, cut)
    ensures TrimRight(s + pad, cut) == TrimRight(s, cut)
  {
    if pad == "" {
      assert s + pad == s;
    } else {
      var n := |pad| - 1;
      assert pad[n] in pad && (s + pad)[|s + pad| - 1] == pad[n] && (s + pad)[..|s + pad| - 1] == s + pad[..n];
      TrimRightPad(s, pad[..n], cut);
    }
  }

  /** Trimming takes the padding off and leaves the rest. */
  lemma TrimPadded(left: string, s: string, right: string, cut: set<char>)
    requires Loose(left, cut) && Loose(right, cut) && Firm(s, cut)
    ensures Trim(left + s + right, cut) == s
  {
    assert left + s + right == left + (s + right);
    TrimLeftPad(left, s + right, cut);
    if s == "" {
      assert s + right == right && right + "" == right;
      TrimLeftPad(right, "", cut);
    } else {
      assert (s + right)[0] == s[0];
      TrimRightPad(s, right, cut);
    }
  }
}
