/** ExtractVarMapping: finds in a PromQL text which label each variable stands for. */
module PromqlExtract {
  import opened Common
  import opened PromqlText
  import opened PromqlScan

  datatype Binding = Binding(name: string, key: string)

  function KeyValue(pair: string): seq<string> {
    if Contains(pair, "!=") then Split(pair, "!=")
    else if Contains(pair, "=~") then Split(pair, "=~")
    else if Contains(pair, "!~") then Split(pair, "!~")
    else Split(pair, "=")
  }

  /** The variable a matcher compares its label with, if any. */
  function Reads(pair: string): Option<Binding> {
    var kv := KeyValue(pair);
    if |kv| != 2 then None
    else
      var value := Trim(Trim(Trim(kv[1], SPACE), {'"'}), {'\''});
      if value != "" && value[0] == '$' then Some(Binding(value[1..], Trim(kv[0], SPACE))) else None
  }

  function AddPair(pair: string, found: map<string, string>): map<string, string> {
    match Reads(pair)
    case None => found
    case Some(b) => found[b.name := b.key]
  }

  function AddPairs(pairs: seq<string>, found: map<string, string>): map<string, string> {
    if pairs == [] then found else AddPairs(pairs[1..], AddPair(pairs[0], found))
  }

  /** What ExtractVarMapping finds from `promql` on; None where slicing between the braces panics. */
  function Extract(promql: string, found: map<string, string>): Option<map<string, string>>
    decreases |promql|
  {
    var start, end := IndexOf(promql, "{"), IndexOf(promql, "}");
    if start == -1 || end == -1 then Some(found)
    else if end < start + 1 then None
    else Extract(promql[end + 1..], AddPairs(Split(promql[start + 1..end], ","), found))
  }

  /** The loop over the pairs of one block. */
  method AddLabels(pairs: seq<string>, found: map<string, string>) returns (varMapping: map<string, string>)
    ensures varMapping == AddPairs(pairs, found)
  {
    varMapping := found;
    for i := 0 to |pairs|
      invariant AddPairs(pairs[i..], varMapping) == AddPairs(pairs, found)
    {
      assert pairs[i..][1..] == pairs[i + 1..];
      var b := Reads(pairs[i]);
      if b.Some? {
        varMapping := varMapping[b.value.name := b.value.key];
      }
    }
  }

  /** ExtractVarMapping; the slice between the braces panics exactly on a stray closing brace. */
  method ExtractVarMapping(query: string) returns (r: Option<map<string, string>>)
    ensures r == Extract(query, map[])
    ensures r.None? <==> Stray(query)
  {
    var promql, varMapping := query, map[];
    while true
      invariant Extract(promql, varMapping) == Extract(query, map[])
      decreases |promql|
    {
      var start := IndexOf(promql, "{");
      if start == -1 {
        r := Some(varMapping);
        break;
      }
      var end := IndexOf(promql, "}");
      if end == -1 {
        r := Some(varMapping);
        break;
      }
      if end < start + 1 {
        r := None;
        break;
      }
      varMapping := AddLabels(Split(promql[start + 1..end], ","), varMapping);
      promql := promql[end + 1..];
    }
    assert r == Extract(query, map[]);
    ExtractPanics(query, map[]);
  }

  // ----------------------------------------------------------- when it panics

  /** A closing brace at `j` with no opening brace since the previous closing brace, which ends at `i`, or
      since the beginning, and an opening brace somewhere after it. */
  predicate StrayAt(s: string, i: nat, j: nat) {
    && i <= j < |s| && s[j] == '}'
    && (i == 0 || s[i - 1] == '}')
    && '{' !in s[i..j] && '{' in s[j + 1..]
  }

  ghost predicate Stray(s: string) {
    exists i, j :: StrayAt(s, i, j)
  }

  lemma StrayUp(a: string, r: string, i: nat, j: nat)
    requires a != "" && a[|a| - 1] == '}' && StrayAt(r, i, j)
    ensures StrayAt(a + r, |a| + i, |a| + j)
  {
    var s := a + r;
    assert s[|a| + i..|a| + j] == r[i..j] && s[|a| + j + 1..] == r[j + 1..];
    if i == 0 { assert s[|a| - 1] == '}'; }
  }

  lemma InSlice(s: string, i: nat, j: nat, k: nat)
    ensures i <= k < j <= |s| ==> s[k] in s[i..j]
  {
    if i <= k < j <= |s| { assert s[i..j][k - i] == s[k]; }
  }

  /** Before the end of a block nothing is stray. */
  lemma StrayBeyond(x: string, y: string, r: string, i: nat, j: nat)
    requires '}' !in x && '}' !in y && StrayAt(x + "{" + y + "}" + r, i, j)
    ensures i >= |x| + |y| + 2
  {
    var s, n := x + "{" + y + "}" + r, |x| + |y| + 2;
    assert s[|x|] == '{';
    assert forall k :: 0 <= k < n - 1 ==> s[k] != '}' by {
      assert forall k :: 0 <= k < |x| ==> s[k] == x[k] && x[k] in x;
      assert forall k :: 0 <= k < |y| ==> s[|x| + 1 + k] == y[k] && y[k] in y;
    }
    InSlice(s, i, j, |x|);
  }

  lemma StrayDown(a: string, r: string, i: nat, j: nat)
    requires StrayAt(a + r, i, j) && i >= |a|
    ensures StrayAt(r, i - |a|, j - |a|)
  {
    var s, n := a + r, |a|;
    assert s[i..j] == r[i - n..j - n] && s[j + 1..] == r[j - n + 1..];
    assert s[j] == r[j - n];
    if i > n { assert s[i - 1] == r[i - n - 1]; }
  }

  lemma StrayInBlock(x: string, y: string, r: string)
    requires '}' !in x && '}' !in y
    ensures Stray(x + "{" + y + "}" + r) <==> Stray(r)
  {
    var a := x + "{" + y + "}";
    if i: nat, j: nat :| StrayAt(a + r, i, j) {
      StrayBeyond(x, y, r, i, j);
      StrayDown(a, r, i, j);
    }
    if i: nat, j: nat :| StrayAt(r, i, j) {
      StrayUp(a, r, i, j);
    }
  }

  lemma NoBraceNoStray(s: string)
    requires '{' !in s || '}' !in s
    ensures !Stray(s)
  {
    forall i: nat, j: nat ensures !StrayAt(s, i, j) {
      if j < |s| {
        assert s[j] in s;
        assert '{' in s[j + 1..] ==> '{' in s;
      }
    }
  }

  /** A closing brace before the first opening brace. */
  lemma ExtractStray(x: string, r: string, found: map<string, string>)
    requires '{' !in x && '}' in x
    ensures Extract(x + "{" + r, found) == None && Stray(x + "{" + r)
  {
    var s := x + "{" + r;
    FoundAt(x, "{", r);
    var a, b := CutAt(x, '}');
    assert s == a + "}" + (b + "{" + r);
    FoundAt(a, "}", b + "{" + r);
    assert StrayAt(s, 0, |a|) by {
      assert s[0..|a|] == a && s[|a|] == '}';
      assert s[|a| + 1..] == b + "{" + r && (b + "{" + r)[|b|] == '{';
    }
  }

  lemma Regroup(x: string, y: string, z: string)
    ensures x + "{" + y + "}" + z == x + "{" + (y + "}" + z)
  {
  }

  /** A block is read and left behind. */
  lemma ExtractBlock(x: string, y: string, r: string, found: map<string, string>)
    requires '{' !in x && '}' !in x && '}' !in y
    ensures Extract(x + "{" + y + "}" + r, found) == Extract(r, AddPairs(Split(y, ","), found))
  {
    var promql, inner := x + "{" + y + "}" + r, x + "{" + y;
    assert promql == x + "{" + (y + "}" + r);
    FoundAt(x, "{", y + "}" + r);
    FoundAt(inner, "}", r);
    assert promql[|x| + 1..|inner|] == y;
    assert promql[|inner| + 1..] == r;
  }

  lemma ExtractNothing(s: string, found: map<string, string>)
    requires '{' !in s || '}' !in s
    ensures Extract(s, found) == Some(found)
  {
    if '{' !in s {
      NotFound(s, "{", '{');
    } else {
      NotFound(s, "}", '}');
    }
  }

  lemma OpenHasNoBrace(x: string, y: string)
    requires '}' !in x && '}' !in y
    ensures '}' !in x + "{" + y
  {
  }

  /** The slice between the braces panics exactly on the texts with a stray closing brace. */
  lemma {:induction false} ExtractPanics(s: string, found: map<string, string>)
    ensures Extract(s, found) == None <==> Stray(s)
    decreases |s|
  {
    if '{' !in s {
      ExtractNothing(s, found);
      NoBraceNoStray(s);
    } else {
      var x, y, r := Dissect(s);
      if '}' in x {
        match r {
          case None => ExtractStray(x, y, found);
          case Some(z) => Regroup(x, y, z); ExtractStray(x, y + "}" + z, found);
        }
      } else if r.None? {
        OpenHasNoBrace(x, y);
        ExtractNothing(s, found);
        NoBraceNoStray(s);
      } else {
        ExtractBlock(x, y, r.value, found);
        StrayInBlock(x, y, r.value);
        ExtractPanics(r.value, AddPairs(Split(y, ","), found));
      }
    }
  }

  /** The shortest text on which it panics. */
  lemma ExtractPanicsAt(s: string, found: map<string, string>)
    requires s == "}{"
    ensures Extract(s, found) == None
  {
    assert StrayAt(s, 0, 0) by { assert s[1..][0] == '{'; }
    ExtractPanics(s, found);
  }

  // ----------------------------------------------------------- stripped queries

  /** A matcher without `$` reads no variable. */
  lemma NoVariable(pair: string)
    requires '$' !in pair
    ensures Reads(pair) == None
  {
    SplitChars(pair, "!=", '$');
    SplitChars(pair, "=~", '$');
    SplitChars(pair, "!~", '$');
    SplitChars(pair, "=", '$');
    var kv := KeyValue(pair);
    if |kv| == 2 {
      TrimChars(kv[1], SPACE, '$');
      TrimChars(Trim(kv[1], SPACE), {'"'}, '$');
      TrimChars(Trim(Trim(kv[1], SPACE), {'"'}), {'\''}, '$');
    }
  }

  lemma {:induction false} NoVariables(ms: seq<string>, found: map<string, string>)
    requires forall m <- ms :: '$' !in m
    ensures AddPairs(ms, found) == found
  {
    if ms == [] {
    } else {
      NoVariable(ms[0]);
      NoVariables(ms[1..], found);
    }
  }

  lemma ExtractStripped(x: string, y: string, r: string, found: map<string, string>)
    requires '{' !in x && '}' !in x && '}' !in y
    ensures Extract(RemoveVal(x + "{" + y + "}" + r), found) == Extract(RemoveVal(r), found)
  {
    RemoveValBlock(x, y, r);
    StripChars(y);
    ExtractBlock(x, Strip(y), RemoveVal(r), found);
    SplitChars(Strip(y), ",", '$');
    NoVariables(Split(Strip(y), ","), found);
  }

  lemma OpenStray(x: string, y: string, found: map<string, string>)
    requires '{' !in x && '}' in x && '}' !in y
    ensures Extract(RemoveVal(x + "{" + y), found) == None && Stray(x + "{" + y)
  {
    RemoveValOpen(x, y);
    ExtractStray(x, StripOpen(y), found);
    ExtractStray(x, y, found);
  }

  lemma BlockStray(x: string, y: string, z: string, found: map<string, string>)
    requires '{' !in x && '}' in x && '}' !in y
    ensures Extract(RemoveVal(x + "{" + y + "}" + z), found) == None && Stray(x + "{" + y + "}" + z)
  {
    RemoveValBlock(x, y, z);
    Regroup(x, Strip(y), RemoveVal(z));
    ExtractStray(x, Strip(y) + "}" + RemoveVal(z), found);
    Regroup(x, y, z);
    ExtractStray(x, y + "}" + z, found);
  }

  /** From a stripped query nothing is extracted, whatever the query; the extraction panics exactly where it
      would on the query itself. */
  lemma {:induction false} ExtractAfterRemoveVal(s: string, found: map<string, string>)
    ensures Extract(RemoveVal(s), found) == if Stray(s) then None else Some(found)
    decreases |s|
  {
    if '{' !in s {
      RemoveValText(s);
      ExtractNothing(s, found);
      NoBraceNoStray(s);
    } else {
      var x, y, r := Dissect(s);
      if '}' in x {
        match r {
          case None => OpenStray(x, y, found);
          case Some(z) => BlockStray(x, y, z, found);
        }
      } else if r.None? {
        RemoveValOpen(x, y);
        StripChars(y);
        OpenHasNoBrace(x, StripOpen(y));
        ExtractNothing(x + "{" + StripOpen(y), found);
        OpenHasNoBrace(x, y);
        NoBraceNoStray(s);
      } else {
        ExtractStripped(x, y, r.value, found);
        StrayInBlock(x, y, r.value);
        ExtractAfterRemoveVal(r.value, found);
      }
    }
  }

  // ----------------------------------------------------------- structured queries

  function AddPieces(ps: seq<Piece>, found: map<string, string>): map<string, string> {
    if ps == [] then found
    else AddPieces(ps[1..], if ps[0].Text? then found else AddPairs(ps[0].matchers, found))
  }

  lemma SplitBlock(ms: seq<string>, found: map<string, string>)
    requires forall m <- ms :: Plain(m)
    ensures AddPairs(Split(Body(ms), ","), found) == AddPairs(ms, found)
  {
    if ms == [] {
      NotFound("", ",", ',');
      NoVariables([""], found);
    } else {
      SplitBody(ms);
    }
  }

  /** The scan of a well-formed query sees exactly its blocks and their matchers; `t` is text already seen. */
  lemma {:induction false} ExtractPieces(t: string, ps: seq<Piece>, found: map<string, string>)
    requires '{' !in t && '}' !in t && WellFormed(ps)
    ensures Extract(t + Print(ps), found) == Some(AddPieces(ps, found))
    decreases |ps|
  {
    if ps == [] {
      assert t + "" == t;
      ExtractNothing(t, found);
    } else {
      var p := ps[0];
      assert Proper(p);
      match p
      case Text(u) =>
        assert t + Print(ps) == t + u + Print(ps[1..]);
        ExtractPieces(t + u, ps[1..], found);
      case Block(ms) =>
        PrintBlock(t, ms, Print(ps[1..]));
        BodyChars(ms, '}');
        ExtractBlock(t, Body(ms), Print(ps[1..]), found);
        SplitBlock(ms, found);
        ExtractPieces("", ps[1..], AddPairs(ms, found));
        assert "" + Print(ps[1..]) == Print(ps[1..]);
    }
  }

  datatype Op = Equal | NotEqual | Match | NotMatch

  /** The spaces before the label, before and after the operator, and after the value. */
  datatype Spacing = Spacing(left: string, before: string, after: string, right: string)

  /** `key op "value"`, or `key op "$value"` for a variable, with whatever quotes and spacing. */
  datatype Matcher = Matcher(key: string, op: Op, quote: string, variable: bool, value: string, spacing: Spacing)

  function OpText(op: Op): string {
    match op
    case Equal => "="
    case NotEqual => "!="
    case Match => "=~"
    case NotMatch => "!~"
  }

  /** The value between the quotes, with its `$`. */
  function Inner(x: Matcher): string {
    (if x.variable then "$" else "") + x.value
  }

  function Quoted(x: Matcher): string {
    x.quote + Inner(x) + x.quote
  }

  function KeyText(x: Matcher): string {
    x.spacing.left + x.key + x.spacing.before
  }

  function ValueText(x: Matcher): string {
    x.spacing.after + Quoted(x) + x.spacing.right
  }

  function PrintMatcher(x: Matcher): string {
    KeyText(x) + OpText(x.op) + ValueText(x)
  }

  const OPERATORS: set<char> := {'=', '!', '~'}
  const DELIMITERS: set<char> := {',', '{', '}'}
  const QUOTES: set<char> := {'"', '\''}

  predicate Without(s: string, cs: set<char>) {
    forall c <- s :: c !in cs
  }

  /** Single quotes, double quotes or none; labels and values without the characters that the scan takes for
      operators, delimiters and quotes; spaces only around them; a literal does not begin with `$`. */
  predicate Legible(x: Matcher) {
    && x.quote in {"\"", "'", ""}
    && Loose(x.spacing.left, SPACE) && Loose(x.spacing.before, SPACE)
    && Loose(x.spacing.after, SPACE) && Loose(x.spacing.right, SPACE)
    && Without(x.key, OPERATORS + DELIMITERS) && Firm(x.key, SPACE)
    && Without(x.value, OPERATORS + DELIMITERS + QUOTES)
    && (x.quote == "" ==> Firm(Inner(x), SPACE))
    && (x.value != "" && x.value[0] == '$' ==> x.variable)
  }

  lemma WithoutAll(a: string, b: string, c: string, cs: set<char>)
    requires Without(a, cs) && Without(b, cs) && Without(c, cs)
    ensures Without(a + b + c, cs)
  {
  }

  lemma SpaceWithout(s: string, cs: set<char>)
    requires Loose(s, SPACE) && SPACE !! cs
    ensures Without(s, cs)
  {
  }

  lemma QuotedWithout(x: Matcher, cs: set<char>)
    requires Legible(x) && Without(x.value, cs) && '$' !in cs && QUOTES !! cs
    ensures Without(Quoted(x), cs)
  {
    assert Without(x.quote, cs);
    assert Without(Inner(x), cs);
    WithoutAll(x.quote, Inner(x), x.quote, cs);
  }

  lemma TextWithout(x: Matcher, cs: set<char>)
    requires Legible(x) && Without(x.key, cs) && Without(x.value, cs) && '$' !in cs && QUOTES !! cs && SPACE !! cs
    ensures Without(KeyText(x), cs) && Without(ValueText(x), cs)
  {
    SpaceWithout(x.spacing.left, cs);
    SpaceWithout(x.spacing.before, cs);
    SpaceWithout(x.spacing.after, cs);
    SpaceWithout(x.spacing.right, cs);
    WithoutAll(x.spacing.left, x.key, x.spacing.before, cs);
    QuotedWithout(x, cs);
    WithoutAll(x.spacing.after, Quoted(x), x.spacing.right, cs);
  }

  lemma KeyValueOf(a: string, op: Op, b: string)
    requires Without(a, OPERATORS) && Without(b, OPERATORS)
    ensures KeyValue(a + OpText(op) + b) == [a, b]
  {
    var pair := a + OpText(op) + b;
    match op
    case Equal =>
      NotFound(pair, "!=", '!');
      NotFound(pair, "=~", '~');
      NotFound(pair, "!~", '!');
      SplitInTwo(a, "=", b, '=');
    case NotEqual =>
      FoundAt(a, "!=", b);
      SplitInTwo(a, "!=", b, '=');
    case Match =>
      NotFound(pair, "!=", '!');
      FoundAt(a, "=~", b);
      SplitInTwo(a, "=~", b, '~');
    case NotMatch =>
      NotFound(pair, "!=", '=');
      NotFound(pair, "=~", '=');
      FoundAt(a, "!~", b);
      SplitInTwo(a, "!~", b, '~');
  }

  lemma NoQuotes(x: Matcher)
    requires Legible(x)
    ensures Firm(Inner(x), {'"'}) && Firm(Inner(x), {'\''})
  {
    var v := Inner(x);
    if v != "" {
      assert forall c <- v :: c in x.value || c == '$';
      assert v[0] in v && v[|v| - 1] in v;
    }
  }

  lemma TrimQuotes(x: Matcher)
    requires Legible(x)
    ensures Trim(Trim(Quoted(x), {'"'}), {'\''}) == Inner(x)
  {
    var v := Inner(x);
    NoQuotes(x);
    TrimPadded("", v, "", {'\''});
    assert "" + v + "" == v;
    if x.quote == "\"" {
      TrimPadded(x.quote, v, x.quote, {'"'});
    } else {
      assert Quoted(x) == "" + Quoted(x) + "";
      TrimPadded("", Quoted(x), "", {'"'});
      TrimPadded(x.quote, v, x.quote, {'\''});
    }
  }

  lemma TrimValue(x: Matcher)
    requires Legible(x)
    ensures Trim(Trim(Trim(ValueText(x), SPACE), {'"'}), {'\''}) == Inner(x)
  {
    assert Firm(Quoted(x), SPACE) by {
      if x.quote != "" {
        var q := Quoted(x);
        assert q[0] == x.quote[0] && q[|q| - 1] == x.quote[0];
      } else {
        assert Quoted(x) == Inner(x);
      }
    }
    TrimPadded(x.spacing.after, Quoted(x), x.spacing.right, SPACE);
    TrimQuotes(x);
  }

  /** A matcher reads its variable, and its label is found. */
  lemma ReadsMatcher(x: Matcher)
    requires Legible(x)
    ensures Reads(PrintMatcher(x)) == if x.variable then Some(Binding(x.value, x.key)) else None
  {
    TextWithout(x, OPERATORS);
    KeyValueOf(KeyText(x), x.op, ValueText(x));
    TrimValue(x);
    TrimPadded(x.spacing.left, x.key, x.spacing.before, SPACE);
    if x.variable {
      assert Inner(x)[1..] == x.value;
    } else {
      assert Inner(x) == x.value;
    }
  }

  function Bind(xs: seq<Matcher>, found: map<string, string>): map<string, string> {
    if xs == [] then found
    else Bind(xs[1..], if xs[0].variable then found[xs[0].value := xs[0].key] else found)
  }

  function PrintMatchers(xs: seq<Matcher>): seq<string> {
    seq(|xs|, i requires 0 <= i < |xs| => PrintMatcher(xs[i]))
  }

  /** A block of matchers yields exactly its variables, each with the label of its last matcher. */
  lemma {:induction false} ReadsMatchers(xs: seq<Matcher>, found: map<string, string>)
    requires forall x <- xs :: Legible(x)
    ensures AddPairs(PrintMatchers(xs), found) == Bind(xs, found)
  {
    if xs == [] {
    } else {
      assert PrintMatchers(xs)[1..] == PrintMatchers(xs[1..]);
      ReadsMatcher(xs[0]);
      ReadsMatchers(xs[1..], if xs[0].variable then found[xs[0].value := xs[0].key] else found);
    }
  }

  /** A query of words and selectors. */
  datatype Clause = Words(text: string) | Selector(matchers: seq<Matcher>)

  predicate Readable(c: Clause) {
    match c
    case Words(t) => '{' !in t && '}' !in t
    case Selector(xs) => forall x <- xs :: Legible(x)
  }

  function PieceOf(c: Clause): Piece {
    match c
    case Words(t) => Text(t)
    case Selector(xs) => Block(PrintMatchers(xs))
  }

  function PiecesOf(cs: seq<Clause>): seq<Piece> {
    seq(|cs|, i requires 0 <= i < |cs| => PieceOf(cs[i]))
  }

  /** The variables of all selectors, in order; a later matcher overrides an earlier one. */
  function BindAll(cs: seq<Clause>, found: map<string, string>): map<string, string> {
    if cs == [] then found
    else BindAll(cs[1..], if cs[0].Words? then found else Bind(cs[0].matchers, found))
  }

  lemma LegibleIsPlain(x: Matcher)
    requires Legible(x)
    ensures Plain(PrintMatcher(x))
  {
    TextWithout(x, DELIMITERS);
    WithoutAll(KeyText(x), OpText(x.op), ValueText(x), DELIMITERS);
    assert ',' in DELIMITERS && '{' in DELIMITERS && '}' in DELIMITERS;
    assert |PrintMatcher(x)| >= |OpText(x.op)| > 0;
  }

  lemma ReadableIsProper(c: Clause)
    requires Readable(c)
    ensures Proper(PieceOf(c))
  {
    match c
    case Words(_) =>
    case Selector(xs) =>
      forall m <- PrintMatchers(xs) ensures Plain(m) {
        var i :| 0 <= i < |xs| && PrintMatchers(xs)[i] == m;
        LegibleIsPlain(xs[i]);
      }
  }

  lemma {:induction false} AddClauses(cs: seq<Clause>, found: map<string, string>)
    requires forall c <- cs :: Readable(c)
    ensures WellFormed(PiecesOf(cs)) && AddPieces(PiecesOf(cs), found) == BindAll(cs, found)
  {
    if cs == [] {
    } else {
      var c := cs[0];
      assert Readable(c);
      ReadableIsProper(c);
      assert PiecesOf(cs)[1..] == PiecesOf(cs[1..]) && PiecesOf(cs) == [PieceOf(c)] + PiecesOf(cs[1..]);
      if c.Selector? { ReadsMatchers(c.matchers, found); }
      AddClauses(cs[1..], if c.Words? then found else Bind(c.matchers, found));
    }
  }

  /** What a whole query maps: exactly the variables of its selectors, each to the label of the last matcher
      that compares with it. */
  lemma ExtractMapsVariables(cs: seq<Clause>)
    requires forall c <- cs :: Readable(c)
    ensures Extract(Print(PiecesOf(cs)), map[]) == Some(BindAll(cs, map[]))
  {
    AddClauses(cs, map[]);
    ExtractPieces("", PiecesOf(cs), map[]);
    assert "" + Print(PiecesOf(cs)) == Print(PiecesOf(cs));
  }
}
