/** removeVal: strips from a PromQL text the matchers that mention a variable. */
module PromqlScan {
  import opened Common
  import opened PromqlText

  /** What to write for the segment `pending`, delimiter in front, when it ends. */
  function Flush(sb: string, pending: string, isVar: bool): string {
    if isVar || pending == "" then ""
    else if sb != "" && sb[|sb| - 1] == '{' then pending[1..]
    else pending
  }

  /** The scanner of removeVal from some position on: `rest` is still to be read, and inside braces
      `pending` is what was read since the last delimiter. */
  function Scan(rest: string, start: bool, pending: string, isVar: bool, sb: string): string
    decreases |rest|
  {
    if rest == "" then sb
    else
      var c := rest[0];
      if !start then
        if c == '{' then Scan(rest[1..], true, [c], isVar, sb + [c]) else Scan(rest[1..], false, "", isVar, sb + [c])
      else
        var v := isVar || c == '$';
        if c == ',' then Scan(rest[1..], true, [c], false, sb + Flush(sb, pending, v))
        else if c == '}' then Scan(rest[1..], false, "", false, sb + Flush(sb, pending, v) + [c])
        else Scan(rest[1..], true, pending + [c], v, sb)
  }

  function RemoveVal(promql: string): string {
    Scan(promql, false, "", false, "")
  }

  /** removeVal, with its indices. */
  method RemoveValLoop(promql: string) returns (sb: string)
    ensures sb == RemoveVal(promql)
  {
    sb := "";
    var start, lastIdx, curIdx, isVar := false, 0, 0, false;
    ghost var pending := "";
    while curIdx < |promql|
      invariant 0 <= lastIdx <= curIdx <= |promql|
      invariant start ==> lastIdx < curIdx && pending == promql[lastIdx..curIdx] && sb != ""
      invariant Scan(promql[curIdx..], start, pending, isVar, sb) == RemoveVal(promql)
    {
      var c := promql[curIdx];
      assert promql[curIdx..][1..] == promql[curIdx + 1..];
      if !start {
        pending := "";
        if c == '{' {
          start, lastIdx, pending := true, curIdx, [c];
        }
        sb := sb + [c];
      } else {
        if c == '$' {
          isVar := true;
        }
        if c == ',' || c == '}' {
          ghost var written := sb + Flush(sb, pending, isVar);
          if !isVar {
            if sb[|sb| - 1] == '{' {
              lastIdx := lastIdx + 1;
            }
            sb := sb + promql[lastIdx..curIdx];
          }
          assert sb == written;
          isVar := false;
          if c == '}' {
            start := false;
            sb := sb + [c];
          }
          lastIdx, pending := curIdx, if c == '}' then "" else [c];
        } else {
          pending := pending + [c];
        }
      }
      curIdx := curIdx + 1;
    }
  }

  // ----------------------------------------------------------- reading the scanner

  lemma {:induction false} ScanText(t: string, rest: string, isVar: bool, sb: string)
    requires '{' !in t
    ensures Scan(t + rest, false, "", isVar, sb) == Scan(rest, false, "", isVar, sb + t)
  {
    if t == "" {
      assert t + rest == rest && sb + t == sb;
    } else {
      assert (t + rest)[0] == t[0] && (t + rest)[1..] == t[1..] + rest;
      ScanText(t[1..], rest, isVar, sb + [t[0]]);
      assert sb + [t[0]] + t[1..] == sb + t;
    }
  }

  lemma {:induction false} ScanMatcher(m: string, rest: string, pending: string, isVar: bool, sb: string)
    requires ',' !in m && '}' !in m
    ensures Scan(m + rest, true, pending, isVar, sb) == Scan(rest, true, pending + m, isVar || '$' in m, sb)
  {
    if m == "" {
      assert m + rest == rest && pending + m == pending;
    } else {
      assert (m + rest)[0] == m[0] && (m + rest)[1..] == m[1..] + rest;
      ScanMatcher(m[1..], rest, pending + [m[0]], isVar || m[0] == '$', sb);
      assert pending + [m[0]] + m[1..] == pending + m;
      assert '$' in m <==> m[0] == '$' || '$' in m[1..] by { assert m == [m[0]] + m[1..]; }
    }
  }

  /** What was written before does not matter. */
  lemma {:induction false} ScanPrefix(rest: string, start: bool, pending: string, isVar: bool, a: string, sb: string)
    requires start ==> sb != ""
    ensures Scan(rest, start, pending, isVar, a + sb) == a + Scan(rest, start, pending, isVar, sb)
    decreases |rest|
  {
    if rest == "" {
    } else {
      var c, v := rest[0], isVar || rest[0] == '$';
      var out := Flush(sb, pending, v);
      if !start {
        assert a + sb + [c] == a + (sb + [c]);
        ScanPrefix(rest[1..], c == '{', if c == '{' then [c] else "", isVar, a, sb + [c]);
      } else {
        assert (a + sb)[|a + sb| - 1] == sb[|sb| - 1];
        assert Flush(a + sb, pending, v) == out;
        assert a + sb + out == a + (sb + out);
        assert a + sb + out + [c] == a + (sb + out + [c]);
        if c == ',' {
          ScanPrefix(rest[1..], true, [c], false, a, sb + out);
        } else if c == '}' {
          ScanPrefix(rest[1..], false, "", false, a, sb + out + [c]);
        } else {
          ScanPrefix(rest[1..], true, pending + [c], v, a, sb);
        }
      }
    }
  }

  lemma ScanOutside(rest: string, sb: string)
    ensures Scan(rest, false, "", false, sb) == sb + RemoveVal(rest)
  {
    ScanPrefix(rest, false, "", false, sb, "");
    assert sb + "" == sb;
  }

  // ----------------------------------------------------------- one block

  function Keep(ms: seq<string>): seq<string> {
    if ms == [] then [] else (if '$' in ms[0] then [] else [ms[0]]) + Keep(ms[1..])
  }

  /** The text has no end that asks for a comma: it is empty or ends in a brace. */
  predicate Bare(g: string) {
    g == "" || g[|g| - 1] == '{'
  }

  /** Kept matchers joined again; no comma is written after an opening brace. */
  function Glue(ms: seq<string>): string {
    if ms == [] then ""
    else
      var g, m := Glue(ms[..|ms| - 1]), ms[|ms| - 1];
      if Bare(g) then g + m else g + "," + m
  }

  /** What removeVal leaves of the inside of a block. */
  function Strip(y: string): string {
    Glue(Keep(Split(y, ",")))
  }

  /** What it leaves of a block that is never closed: the last matcher is lost. */
  function StripOpen(y: string): string {
    var ms := Split(y, ",");
    Glue(Keep(ms[..|ms| - 1]))
  }

  function KeptWith(kept: seq<string>, m: string): seq<string> {
    if '$' in m then kept else kept + [m]
  }

  /** Ending the segment of matcher `m` after keeping `kept`. */
  lemma FlushMatcher(kept: seq<string>, d: char, m: string)
    requires (d == '{' && kept == []) || d == ','
    ensures var sb := "{" + Glue(kept);
            sb + Flush(sb, [d] + m, '$' in m) == "{" + Glue(KeptWith(kept, m))
  {
    var g := Glue(kept);
    var sb := "{" + g;
    if '$' in m {
      assert sb + "" == sb;
    } else {
      assert (kept + [m])[..|kept|] == kept && ([d] + m)[1..] == m;
      if Bare(g) {
        assert sb[|sb| - 1] == '{';
        assert sb + m == "{" + (g + m);
      } else {
        assert sb[|sb| - 1] == g[|g| - 1];
        assert [d] + m == "," + m && sb + ("," + m) == "{" + (g + "," + m);
      }
    }
  }

  /** A matcher and the delimiter `c` after it. */
  lemma ScanMatcherEnd(m: string, c: char, after: string, d: char, kept: seq<string>)
    requires ',' !in m && '}' !in m
    requires (d == '{' && kept == []) || d == ','
    requires c == ',' || c == '}'
    ensures Scan(m + ([c] + after), true, [d], false, "{" + Glue(kept)) ==
            var sb := "{" + Glue(KeptWith(kept, m));
            if c == ',' then Scan(after, true, ",", false, sb) else Scan(after, false, "", false, sb + "}")
  {
    ScanMatcher(m, [c] + after, [d], false, "{" + Glue(kept));
    FlushMatcher(kept, d, m);
    assert ([c] + after)[0] == c && ([c] + after)[1..] == after;
  }

  /** Inside a block: the matchers still to come are kept or dropped one by one. */
  lemma {:induction false} ScanBody(ms: seq<string>, rest: string, d: char, kept: seq<string>)
    requires ms != [] && forall m <- ms :: ',' !in m && '}' !in m
    requires (d == '{' && kept == []) || d == ','
    ensures Scan(Body(ms) + "}" + rest, true, [d], false, "{" + Glue(kept)) ==
            Scan(rest, false, "", false, "{" + Glue(kept + Keep(ms)) + "}")
  {
    var m := ms[0];
    assert m in ms;
    assert KeptWith(kept, m) + Keep(ms[1..]) == kept + Keep(ms);
    if |ms| == 1 {
      assert kept + Keep(ms) == KeptWith(kept, m);
      assert Body(ms) + "}" + rest == m + ("}" + rest);
      ScanMatcherEnd(m, '}', rest, d, kept);
    } else {
      var after := Body(ms[1..]) + "}" + rest;
      assert Body(ms) + "}" + rest == m + ("," + after);
      ScanMatcherEnd(m, ',', after, d, kept);
      ScanBody(ms[1..], rest, ',', KeptWith(kept, m));
    }
  }

  lemma BodyHead(ms: seq<string>)
    requires |ms| > 1
    ensures Body(ms) == ms[0] + ("," + Body(ms[1..]))
  {
  }

  lemma {:induction false} KeepFront(ms: seq<string>, kept: seq<string>)
    requires |ms| > 1
    ensures var n := |ms| - 1; KeptWith(kept, ms[0]) + Keep(ms[1..][..n - 1]) == kept + Keep(ms[..n])
  {
    var n := |ms| - 1;
    assert ms[..n][0] == ms[0] && ms[..n][1..] == ms[1..][..n - 1];
  }

  lemma {:induction false} ScanOpenBody(ms: seq<string>, d: char, kept: seq<string>)
    requires ms != [] && forall m <- ms :: ',' !in m && '}' !in m
    requires (d == '{' && kept == []) || d == ','
    ensures Scan(Body(ms), true, [d], false, "{" + Glue(kept)) == "{" + Glue(kept + Keep(ms[..|ms| - 1]))
  {
    var m, n := ms[0], |ms| - 1;
    assert m in ms;
    if n == 0 {
      assert kept + Keep(ms[..0]) == kept;
      var sb := "{" + Glue(kept);
      calc {
        Scan(Body(ms), true, [d], false, sb);
        { assert m + "" == Body(ms); }
        Scan(m + "", true, [d], false, sb);
        { ScanMatcher(m, "", [d], false, sb); }
        sb;
      }
    } else {
      var rest := Body(ms[1..]);
      calc {
        Scan(Body(ms), true, [d], false, "{" + Glue(kept));
        { BodyHead(ms); }
        Scan(m + ("," + rest), true, [d], false, "{" + Glue(kept));
        { ScanMatcherEnd(m, ',', rest, d, kept); }
        Scan(rest, true, ",", false, "{" + Glue(KeptWith(kept, m)));
        { ScanOpenBody(ms[1..], ',', KeptWith(kept, m)); }
        "{" + Glue(KeptWith(kept, m) + Keep(ms[1..][..n - 1]));
        { KeepFront(ms, kept); }
        "{" + Glue(kept + Keep(ms[..n]));
      }
    }
  }

  // ----------------------------------------------------------- removeVal on every text

  /** A text without an opening brace stays. */
  lemma RemoveValText(s: string)
    requires '{' !in s
    ensures RemoveVal(s) == s
  {
    ScanText(s, "", false, "");
    assert s + "" == s && "" + s == s;
  }

  lemma RemoveValHead(x: string, r: string)
    requires '{' !in x
    ensures RemoveVal(x + "{" + r) == x + Scan(r, true, "{", false, "{")
  {
    assert x + "{" + r == x + ("{" + r);
    ScanText(x, "{" + r, false, "");
    assert "" + x == x && ("{" + r)[1..] == r;
    ScanPrefix(r, true, "{", false, x, "{");
  }

  /** Everything up to the first opening brace stays, the block loses its matchers with a variable, and
      the text after the closing brace is treated alike. */
  lemma RemoveValBlock(x: string, y: string, r: string)
    requires '{' !in x && '}' !in y
    ensures RemoveVal(x + "{" + y + "}" + r) == x + "{" + Strip(y) + "}" + RemoveVal(r)
  {
    var ms := Split(y, ",");
    BodySplit(y);
    SplitChars(y, ",", '}');
    assert x + "{" + y + "}" + r == x + "{" + (y + "}" + r);
    RemoveValHead(x, y + "}" + r);
    assert "{" + Glue([]) == "{" && [] + Keep(ms) == Keep(ms);
    ScanBody(ms, r, '{', []);
    ScanOutside(r, "{" + Strip(y) + "}");
    assert x + ("{" + Strip(y) + "}" + RemoveVal(r)) == x + "{" + Strip(y) + "}" + RemoveVal(r);
  }

  lemma ScanOpen(y: string)
    requires '}' !in y
    ensures Scan(y, true, "{", false, "{") == "{" + StripOpen(y)
  {
    var ms := Split(y, ",");
    BodySplit(y);
    SplitChars(y, ",", '}');
    assert "{" + Glue([]) == "{";
    assert [] + Keep(ms[..|ms| - 1]) == Keep(ms[..|ms| - 1]);
    ScanOpenBody(ms, '{', []);
  }

  /** A block that is never closed also loses its last matcher. */
  lemma RemoveValOpen(x: string, y: string)
    requires '{' !in x && '}' !in y
    ensures RemoveVal(x + "{" + y) == x + "{" + StripOpen(y)
  {
    RemoveValHead(x, y);
    ScanOpen(y);
    assert x + ("{" + StripOpen(y)) == x + "{" + StripOpen(y);
  }

  /** Every text with an opening brace has one of the two shapes. */
  lemma Dissect(s: string) returns (x: string, y: string, r: Option<string>)
    requires '{' in s
    ensures '{' !in x && '}' !in y
    ensures s == match r case None => x + "{" + y case Some(z) => x + "{" + y + "}" + z
  {
    var tail;
    x, tail := CutAt(s, '{');
    if '}' in tail {
      var z;
      y, z := CutAt(tail, '}');
      assert x + "{" + (y + "}" + z) == x + "{" + y + "}" + z;
      r := Some(z);
    } else {
      y, r := tail, None;
    }
  }

  // ----------------------------------------------------------- stripping twice

  lemma {:induction false} KeepMembers(ms: seq<string>)
    ensures forall m :: m in Keep(ms) <==> m in ms && '$' !in m
  {
    if ms == [] {
    } else {
      KeepMembers(ms[1..]);
      assert ms == [ms[0]] + ms[1..];
    }
  }

  lemma {:induction false} KeepAll(ms: seq<string>)
    requires forall m <- ms :: '$' !in m
    ensures Keep(ms) == ms
  {
    if ms == [] {
    } else {
      KeepAll(ms[1..]);
      assert ms[0] in ms && ms == [ms[0]] + ms[1..];
    }
  }

  lemma {:induction false} GlueChars(ms: seq<string>, c: char)
    requires c != ',' && forall m <- ms :: c !in m
    ensures c !in Glue(ms)
  {
    if ms == [] {
    } else {
      GlueChars(ms[..|ms| - 1], c);
      assert ms[|ms| - 1] in ms;
    }
  }

  /** Splitting what was glued and gluing it again changes nothing. */
  lemma {:induction false} GlueAgain(ms: seq<string>)
    requires forall m <- ms :: ',' !in m
    ensures Glue(Split(Glue(ms), ",")) == Glue(ms)
  {
    if ms == [] {
      NotFound("", ",", ',');
      assert Glue([""]) == "" by { assert [""][..0] == []; }
    } else {
      var g, m := Glue(ms[..|ms| - 1]), ms[|ms| - 1];
      assert m in ms;
      GlueAgain(ms[..|ms| - 1]);
      var ps := Split(g, ",");
      var front, last := ps[..|ps| - 1], ps[|ps| - 1];
      if Bare(g) {
        SplitExtend(g, m);
        assert (front + [last + m])[..|front|] == front;
        assert Glue(front + [last + m]) == Glue(ps) + m by { GlueExtend(front, last, m); assert ps == front + [last]; }
      } else {
        SplitAppend(g, m);
        assert (ps + [m])[..|ps|] == ps;
      }
    }
  }

  lemma GlueExtend(front: seq<string>, last: string, m: string)
    ensures Glue(front + [last + m]) == Glue(front + [last]) + m
  {
    assert (front + [last + m])[..|front|] == front && (front + [last])[..|front|] == front;
    var g := Glue(front);
    assert g + (last + m) == g + last + m && g + "," + (last + m) == g + "," + last + m;
  }

  lemma {:induction false} GlueIsShort(ms: seq<string>)
    ensures |Glue(ms)| <= |Body(ms)|
  {
    if ms == [] {
    } else {
      var front, last := ms[..|ms| - 1], ms[|ms| - 1];
      GlueIsShort(front);
      assert ms == front + [last];
      BodyAppend(front, last);
    }
  }

  lemma {:induction false} GlueIsEmpty(ms: seq<string>)
    ensures Glue(ms) == "" <==> forall m <- ms :: m == ""
  {
    if ms == [] {
    } else {
      var front, last := ms[..|ms| - 1], ms[|ms| - 1];
      GlueIsEmpty(front);
      assert forall m :: m in ms <==> m in front || m == last by { assert ms == front + [last]; }
      assert last in ms;
      if Glue(front) == "" && last == "" {
        assert Glue(ms) == "" + "";
      } else {
        assert |Glue(ms)| > 0;
      }
    }
  }

  lemma KeptParts(ms: seq<string>, y: string, c: char)
    requires ms <= Split(y, ",") && (c == '$' || c !in y) && c != ','
    ensures c !in Glue(Keep(ms)) && forall m <- Keep(ms) :: ',' !in m
  {
    BodySplit(y);
    if c !in y { SplitChars(y, ",", c); }
    KeepMembers(ms);
    GlueChars(Keep(ms), c);
  }

  /** What is left of a block has no variable and no closing brace. */
  lemma StripChars(y: string)
    requires '}' !in y
    ensures '$' !in Strip(y) && '}' !in Strip(y) && '$' !in StripOpen(y) && '}' !in StripOpen(y)
  {
    var ms := Split(y, ",");
    KeptParts(ms, y, '$');
    KeptParts(ms, y, '}');
    KeptParts(ms[..|ms| - 1], y, '$');
    KeptParts(ms[..|ms| - 1], y, '}');
  }

  lemma StripTwice(y: string)
    ensures Strip(Strip(y)) == Strip(y)
  {
    var ms := Split(y, ",");
    KeptParts(ms, y, '$');
    SplitChars(Strip(y), ",", '$');
    KeepAll(Split(Strip(y), ","));
    GlueAgain(Keep(ms));
  }

  /** Of an unclosed block some more is lost each time, until nothing is left. */
  lemma StripOpenTwice(y: string)
    ensures StripOpen(StripOpen(y)) == StripOpen(y) <==> StripOpen(y) == ""
  {
    var t := StripOpen(y);
    var ms := Split(y, ",");
    KeptParts(ms[..|ms| - 1], y, '$');
    var ps := Split(t, ",");
    var front, last := ps[..|ps| - 1], ps[|ps| - 1];
    SplitChars(t, ",", '$');
    KeepAll(front);
    FrontIsShorter(t);
  }

  lemma FrontIsShorter(t: string)
    ensures var ps := Split(t, ","); t != "" ==> |Glue(ps[..|ps| - 1])| < |t|
    ensures var ps := Split(t, ","); t == "" ==> Glue(ps[..|ps| - 1]) == ""
  {
    var ps := Split(t, ",");
    var front, last := ps[..|ps| - 1], ps[|ps| - 1];
    BodySplit(t);
    assert ps == front + [last];
    BodyAppend(front, last);
    GlueIsShort(front);
  }

  /** No matcher of an unclosed block that ends in a comma is written. */
  predicate NothingKept(y: string) {
    var ms := Split(y, ",");
    forall k :: 0 <= k < |ms| - 1 ==> ms[k] == "" || '$' in ms[k]
  }

  lemma NothingKeptIsEmpty(y: string)
    ensures StripOpen(y) == "" <==> NothingKept(y)
  {
    var ms := Split(y, ",");
    var front := ms[..|ms| - 1];
    KeepMembers(front);
    GlueIsEmpty(Keep(front));
    assert forall k :: 0 <= k < |front| ==> front[k] == ms[k] && front[k] in front;
  }

  function AfterLast(s: string, c: char): string {
    if s == "" || s[|s| - 1] == c then "" else AfterLast(s[..|s| - 1], c) + [s[|s| - 1]]
  }

  /** The inside of a block that is opened after the last closing brace. */
  function OpenTail(s: string): Option<string> {
    var t := AfterLast(s, '}');
    var i := IndexOf(t, "{");
    if i == -1 then None else Some(t[i + 1..])
  }

  lemma {:induction false} AfterLastOpen(a: string, b: string, c: char)
    requires c !in b
    ensures AfterLast(a + b, c) == AfterLast(a, c) + b
  {
    if b == "" {
      assert a + b == a;
    } else {
      var n := |b| - 1;
      AfterLastOpen(a, b[..n], c);
      assert (a + b)[..|a + b| - 1] == a + b[..n];
      assert AfterLast(a, c) + b[..n] + [b[n]] == AfterLast(a, c) + b;
    }
  }

  lemma {:induction false} AfterLastClosed(a: string, b: string, c: char)
    ensures AfterLast(a + [c] + b, c) == AfterLast(b, c)
  {
    var s := a + [c] + b;
    if b == "" {
      assert s[|s| - 1] == c;
    } else {
      var n := |b| - 1;
      assert s[|s| - 1] == b[n] && s[..|s| - 1] == a + [c] + b[..n];
      AfterLastClosed(a, b[..n], c);
    }
  }

  lemma {:induction false} AfterLastChars(s: string, c: char, d: char)
    requires d !in s
    ensures d !in AfterLast(s, c)
  {
    if s == "" || s[|s| - 1] == c {
    } else {
      AfterLastChars(s[..|s| - 1], c, d);
    }
  }

  lemma OpenTailOf(x: string, y: string)
    requires '{' !in x && '}' !in y
    ensures OpenTail(x + "{" + y) == Some(y)
  {
    assert x + "{" + y == x + ("{" + y);
    AfterLastOpen(x, "{" + y, '}');
    var a := AfterLast(x, '}');
    AfterLastChars(x, '}', '{');
    assert a + ("{" + y) == a + "{" + y;
    FoundAt(a, "{", y);
    assert (a + "{" + y)[|a| + 1..] == y;
  }

  lemma OpenTailText(s: string)
    requires '{' !in s
    ensures OpenTail(s) == None
  {
    AfterLastChars(s, '}', '{');
    NotFound(AfterLast(s, '}'), "{", '{');
  }

  lemma TwiceInside(x: string, y: string, r: string)
    requires '{' !in x && '}' !in y
    ensures var s := x + "{" + y + "}" + r;
            RemoveVal(RemoveVal(s)) == RemoveVal(s) <==> RemoveVal(RemoveVal(r)) == RemoveVal(r)
  {
    var head := x + "{" + Strip(y) + "}";
    var once := RemoveVal(r);
    RemoveValBlock(x, y, r);
    StripChars(y);
    RemoveValBlock(x, Strip(y), once);
    StripTwice(y);
    assert (head + RemoveVal(once))[|head|..] == RemoveVal(once) && (head + once)[|head|..] == once;
  }

  lemma TwiceOpen(x: string, y: string)
    requires '{' !in x && '}' !in y
    ensures var s := x + "{" + y; RemoveVal(RemoveVal(s)) == RemoveVal(s) <==> NothingKept(y)
  {
    var head, once := x + "{", StripOpen(y);
    RemoveValOpen(x, y);
    StripChars(y);
    RemoveValOpen(x, once);
    StripOpenTwice(y);
    NothingKeptIsEmpty(y);
    assert (head + StripOpen(once))[|head|..] == StripOpen(once) && (head + once)[|head|..] == once;
  }

  /** Stripping twice strips nothing more, on every text but those that end in an unclosed block of which
      something was kept. */
  lemma {:induction false} RemoveValTwice(s: string)
    ensures RemoveVal(RemoveVal(s)) == RemoveVal(s) <==>
            match OpenTail(s) case None => true case Some(y) => NothingKept(y)
    decreases |s|
  {
    if '{' !in s {
      RemoveValText(s);
      OpenTailText(s);
    } else {
      var x, y, r := Dissect(s);
      match r {
        case None =>
          TwiceOpen(x, y);
          OpenTailOf(x, y);
        case Some(z) =>
          TwiceInside(x, y, z);
          AfterLastClosed(x + "{" + y, z, '}');
          RemoveValTwice(z);
      }
    }
  }

  lemma OpenLosesMore(x: string, a: string, b: string)
    requires '{' !in x && a != "" && ',' !in a && '$' !in a && '}' !in a && ',' !in b && '}' !in b
    ensures var s := x + "{" + (a + "," + b); RemoveVal(RemoveVal(s)) != RemoveVal(s)
  {
    SplitInTwo(a, ",", b, ',');
    assert !NothingKept(a + "," + b) by { assert Split(a + "," + b, ",")[0] == a; }
    TwiceOpen(x, a + "," + b);
  }

  /** An unclosed block loses a matcher each time. */
  lemma RemoveValTwiceFails(s: string)
    requires s == "{a,b"
    ensures RemoveVal(RemoveVal(s)) != RemoveVal(s)
  {
    var x, a, b := s[..0], s[1..2], s[3..];
    assert s == x + "{" + (a + "," + b);
    OpenLosesMore(x, a, b);
  }

  // ----------------------------------------------------------- structured queries

  /** A query as text outside braces and brace blocks of matchers. */
  datatype Piece = Text(text: string) | Block(matchers: seq<string>)

  function PrintPiece(p: Piece): string {
    match p
    case Text(t) => t
    case Block(ms) => "{" + Body(ms) + "}"
  }

  function Print(ps: seq<Piece>): string {
    if ps == [] then "" else PrintPiece(ps[0]) + Print(ps[1..])
  }

  predicate Plain(m: string) {
    m != "" && ',' !in m && '{' !in m && '}' !in m
  }

  /** Blocks do not nest, matchers are nonempty and free of delimiters. */
  predicate WellFormed(ps: seq<Piece>) {
    forall p <- ps :: Proper(p)
  }

  predicate Proper(p: Piece) {
    match p
    case Text(t) => '{' !in t && '}' !in t
    case Block(ms) => forall m <- ms :: Plain(m)
  }

  function DropPiece(p: Piece): Piece {
    match p
    case Text(_) => p
    case Block(ms) => Block(Keep(ms))
  }

  /** The query without the matchers that mention a variable. */
  function Drop(ps: seq<Piece>): seq<Piece> {
    seq(|ps|, i requires 0 <= i < |ps| => DropPiece(ps[i]))
  }

  lemma {:induction false} GlueIsBody(ms: seq<string>)
    requires forall m <- ms :: Plain(m)
    ensures Glue(ms) == Body(ms) && (Bare(Glue(ms)) <==> ms == [])
  {
    if ms == [] {
    } else {
      var front, last := ms[..|ms| - 1], ms[|ms| - 1];
      GlueIsBody(front);
      assert ms == front + [last] && Plain(last) && last[|last| - 1] in last;
      BodyAppend(front, last);
      assert Body(ms)[|Body(ms)| - 1] == last[|last| - 1];
    }
  }

  lemma StripPlain(ms: seq<string>)
    requires forall m <- ms :: Plain(m)
    ensures Strip(Body(ms)) == Body(Keep(ms))
  {
    if ms == [] {
      NotFound("", ",", ',');
      assert Keep([""]) == [""] by { assert [""][1..] == []; }
      assert Glue([""]) == "" by { assert [""][..0] == []; }
    } else {
      SplitBody(ms);
      KeepMembers(ms);
      GlueIsBody(Keep(ms));
    }
  }

  lemma PrintBlock(t: string, ms: seq<string>, rest: string)
    ensures t + (PrintPiece(Block(ms)) + rest) == t + "{" + Body(ms) + "}" + rest
  {
  }

  lemma StripBlock(t: string, ms: seq<string>, rest: string)
    requires '{' !in t && forall m <- ms :: Plain(m)
    ensures RemoveVal(t + (PrintPiece(Block(ms)) + rest)) == t + (PrintPiece(Block(Keep(ms))) + RemoveVal(rest))
  {
    BodyChars(ms, '}');
    calc {
      RemoveVal(t + (PrintPiece(Block(ms)) + rest));
      { PrintBlock(t, ms, rest); }
      RemoveVal(t + "{" + Body(ms) + "}" + rest);
      { RemoveValBlock(t, Body(ms), rest); }
      t + "{" + Strip(Body(ms)) + "}" + RemoveVal(rest);
      { StripPlain(ms); }
      t + "{" + Body(Keep(ms)) + "}" + RemoveVal(rest);
      { PrintBlock(t, Keep(ms), RemoveVal(rest)); }
      t + (PrintPiece(Block(Keep(ms))) + RemoveVal(rest));
    }
  }

  /** On well-formed queries, with the text `t` in front. */
  lemma {:induction false} StripPieces(t: string, ps: seq<Piece>)
    requires '{' !in t && WellFormed(ps)
    ensures RemoveVal(t + Print(ps)) == t + Print(Drop(ps))
    decreases |ps|, 0
  {
    if ps == [] {
      assert Drop(ps) == [] && t + "" == t;
      RemoveValText(t);
    } else {
      var p, rest, last := ps[0], Print(ps[1..]), Print(Drop(ps[1..]));
      var kept := PrintPiece(DropPiece(p));
      assert Proper(p);
      calc {
        RemoveVal(t + Print(ps));
        RemoveVal(t + (PrintPiece(p) + rest));
        { StripOne(t, p, ps[1..]); }
        t + (kept + last);
        { PrintDropped(ps); }
        t + Print(Drop(ps));
      }
    }
  }

  lemma Concatenates(a: string, b: string, c: string)
    ensures a + (b + c) == a + b + c && "" + c == c
  {
  }

  lemma StripOne(t: string, p: Piece, ps: seq<Piece>)
    requires '{' !in t && Proper(p) && WellFormed(ps)
    ensures RemoveVal(t + (PrintPiece(p) + Print(ps))) == t + (PrintPiece(DropPiece(p)) + Print(Drop(ps)))
    decreases |ps|, 1
  {
    var rest, last := Print(ps), Print(Drop(ps));
    match p
    case Text(u) =>
      calc {
        RemoveVal(t + (u + rest));
        { Concatenates(t, u, rest); }
        RemoveVal(t + u + rest);
        { StripPieces(t + u, ps); }
        t + u + last;
        { Concatenates(t, u, last); }
        t + (u + last);
      }
    case Block(ms) =>
      calc {
        RemoveVal(t + (PrintPiece(p) + rest));
        { StripBlock(t, ms, rest); }
        t + (PrintPiece(Block(Keep(ms))) + RemoveVal(rest));
        { StripPieces("", ps); Concatenates("", "", rest); Concatenates("", "", last); }
        t + (PrintPiece(Block(Keep(ms))) + last);
      }
  }

  lemma PrintDropped(ps: seq<Piece>)
    requires ps != []
    ensures Print(Drop(ps)) == PrintPiece(DropPiece(ps[0])) + Print(Drop(ps[1..]))
  {
    assert Drop(ps)[1..] == Drop(ps[1..]);
  }

  /** Matcher stripping is parse, drop the matchers with a variable, print. */
  lemma RemoveValDropsVariables(ps: seq<Piece>)
    requires WellFormed(ps)
    ensures RemoveVal(Print(ps)) == Print(Drop(ps))
  {
    StripPieces("", ps);
    assert "" + Print(ps) == Print(ps) && "" + Print(Drop(ps)) == Print(Drop(ps));
  }
}
