/**
 * String operations the parsers rely on: the character classes of the
 * grammars, prefix and substring tests, ASCII lower-casing, whitespace
 * trimming, splitting on a separator, and decimal conversion.
 * Strings are sequences of Unicode scalar values.
 */
module Text {
  import opened Wrappers

  // ---------------------------------------------------------------------
  // Character classes
  // ---------------------------------------------------------------------

  predicate IsDigit(c: char) { '0' <= c <= '9' }

  /** The `\s` class of the regular-expression syntax: tab, newline, form feed, carriage return, space. */
  predicate IsPatternSpace(c: char)
  {
    c == '\t' || c == '\n' || c == '\U{000C}' || c == '\r' || c == ' '
  }

  /** The `\w` class: ASCII letters, digits and underscore. */
  predicate IsWordChar(c: char)
  {
    IsDigit(c) || 'a' <= c <= 'z' || 'A' <= c <= 'Z' || c == '_'
  }

  /** White space as the Unicode White_Space property defines it (what trimming removes). */
  predicate IsUnicodeSpace(c: char)
  {
    c == '\t' || c == '\n' || c == '\U{000B}' || c == '\U{000C}' || c == '\r' || c == ' ' ||
    c == '\U{0085}' || c == '\U{00A0}' || c == '\U{1680}' || ('\U{2000}' <= c <= '\U{200A}') ||
    c == '\U{2028}' || c == '\U{2029}' || c == '\U{202F}' || c == '\U{205F}' || c == '\U{3000}'
  }

  /** The classes the record grammars are built from. */
  datatype CharClass = Digit | Space | NonSpace | Word | VersionChar | UnicodeSpace | LineChar

  predicate InClass(c: char, cls: CharClass)
  {
    match cls
    case Digit => IsDigit(c)
    case Space => IsPatternSpace(c)
    case NonSpace => !IsPatternSpace(c)
    case Word => IsWordChar(c)
    case VersionChar => IsDigit(c) || c == '.'
    case UnicodeSpace => IsUnicodeSpace(c)
    case LineChar => c != '\n'
  }

  predicate AllIn(s: string, cls: CharClass)
  {
    forall i :: 0 <= i < |s| ==> InClass(s[i], cls)
  }

  /** `s` is empty or does not begin with a character of `cls`: a run of `cls` cannot continue into it. */
  predicate StartsOutside(s: string, cls: CharClass)
  {
    s == [] || !InClass(s[0], cls)
  }

  /** A non-empty string of decimal digits. */
  predicate AllDigits(s: string)
  {
    s != [] && AllIn(s, Digit)
  }

  // ---------------------------------------------------------------------
  // Scanning
  // ---------------------------------------------------------------------

  /** Length of the longest prefix of `s` made of characters of `cls`. */
  function Span(s: string, cls: CharClass): (n: nat)
    ensures n <= |s|
    ensures forall i :: 0 <= i < n ==> InClass(s[i], cls)
    ensures n < |s| ==> !InClass(s[n], cls)
  {
    if |s| > 0 && InClass(s[0], cls) then 1 + Span(s[1..], cls) else 0
  }

  /** A field cut off the front of a string, and what follows it. */
  datatype Cut = Cut(field: string, rest: string)

  /** A non-empty maximal run of `cls` at the front of `s` (a greedy `cls+`). */
  function Run(s: string, cls: CharClass): (r: Option<Cut>)
    ensures r.Some? <==> |s| > 0 && InClass(s[0], cls)
  {
    var n := Span(s, cls);
    if n == 0 then None else Some(Cut(s[..n], s[n..]))
  }

  /** What a successful run consists of. */
  lemma RunParts(s: string, cls: CharClass)
    requires Run(s, cls).Some?
    ensures var c := Run(s, cls).value;
      s == c.field + c.rest && c.field != [] && AllIn(c.field, cls) && StartsOutside(c.rest, cls)
  {
    var n := Span(s, cls);
    assert s == s[..n] + s[n..];
    assert forall i :: 0 <= i < n ==> s[..n][i] == s[i];
  }

  lemma {:induction false} SpanAppend(a: string, b: string, cls: CharClass)
    requires AllIn(a, cls)
    ensures Span(a + b, cls) == |a| + Span(b, cls)
  {
    if a == [] {
      assert a + b == b;
    } else {
      assert (a + b)[1..] == a[1..] + b;
      SpanAppend(a[1..], b, cls);
    }
  }

  /** A run that is followed by something outside its class is read back exactly. */
  lemma RunOf(a: string, b: string, cls: CharClass)
    requires a != [] && AllIn(a, cls) && StartsOutside(b, cls)
    ensures Run(a + b, cls) == Some(Cut(a, b))
  {
    SpanAppend(a, b, cls);
    assert (a + b)[..|a|] == a;
    assert (a + b)[|a|..] == b;
  }

  /** A run that stops inside `x` stops at the same place when more text follows. */
  lemma RunExtend(x: string, b: string, cls: CharClass)
    requires Run(x, cls).Some?
    requires Run(x, cls).value.rest != [] || StartsOutside(b, cls)
    ensures Run(x + b, cls) == Some(Cut(Run(x, cls).value.field, Run(x, cls).value.rest + b))
  {
    RunParts(x, cls);
    var c := Run(x, cls).value;
    assert x + b == c.field + (c.rest + b);
    if c.rest != [] {
      assert (c.rest + b)[0] == c.rest[0];
    } else {
      assert c.rest + b == b;
    }
    RunOf(c.field, c.rest + b, cls);
  }

  predicate HasPrefix(s: string, p: string)
  {
    |p| <= |s| && s[..|p|] == p
  }

  /** What follows the literal `p` at the front of `s`. */
  function Expect(s: string, p: string): (r: Option<string>)
    ensures r.Some? <==> HasPrefix(s, p)
  {
    if HasPrefix(s, p) then Some(s[|p|..]) else None
  }

  lemma ExpectParts(s: string, p: string)
    requires Expect(s, p).Some?
    ensures s == p + Expect(s, p).value
  {
    assert s == s[..|p|] + s[|p|..];
  }

  lemma ExpectOf(p: string, b: string)
    ensures Expect(p + b, p) == Some(b)
  {
    assert (p + b)[..|p|] == p;
    assert (p + b)[|p|..] == b;
  }

  lemma ExpectExtend(x: string, p: string, b: string)
    requires Expect(x, p).Some?
    ensures Expect(x + b, p) == Some(Expect(x, p).value + b)
  {
    ExpectParts(x, p);
    var v := Expect(x, p).value;
    assert x + b == p + (v + b);
    ExpectOf(p, v + b);
  }

  /** Index of the first occurrence of `c` in `s`. */
  function IndexOf(s: string, c: char): (i: nat)
    requires c in s
    ensures i < |s| && s[i] == c
    ensures forall j :: 0 <= j < i ==> s[j] != c
  {
    if s[0] == c then 0 else 1 + IndexOf(s[1..], c)
  }

  /** Index of the last occurrence of `c` in `s`. */
  function LastIndexOf(s: string, c: char): (i: nat)
    requires c in s
    ensures i < |s| && s[i] == c
    ensures forall j :: i < j < |s| ==> s[j] != c
  {
    if s[|s| - 1] == c then |s| - 1
    else
      var init := s[..|s| - 1];
      assert c in init by {
        var j :| 0 <= j < |s| && s[j] == c;
        assert init[j] == c;
      }
      LastIndexOf(init, c)
  }

  /** `c` does not occur in `s`. */
  predicate Free(s: string, c: char)
  {
    forall j :: 0 <= j < |s| ==> s[j] != c
  }

  /** Index of the first `c` in `s`, if there is one. */
  function Find(s: string, c: char): (r: Option<nat>)
    ensures r.Some? ==> r.value < |s| && s[r.value] == c && forall j :: 0 <= j < r.value ==> s[j] != c
    ensures r.None? ==> Free(s, c)
  {
    if s == [] then None
    else if s[0] == c then Some(0)
    else
      match Find(s[1..], c)
      case Some(i) => Some(i + 1)
      case None => None
  }

  /** A one-character substring occurs exactly when the search for that character succeeds. */
  lemma ContainsChar(s: string, c: char)
    ensures Contains(s, [c]) <==> Find(s, c).Some?
  {
    ContainsIff(s, [c]);
    if Find(s, c).Some? {
      var i := Find(s, c).value;
      assert OccursAt(s, [c], i);
    }
    if Contains(s, [c]) {
      var i: nat :| OccursAt(s, [c], i);
      assert s[i] == s[i..i + 1][0];
    }
  }

  /** The search stops at the first occurrence. */
  lemma FindAt(s: string, c: char, i: nat)
    requires i < |s| && s[i] == c && forall j :: 0 <= j < i ==> s[j] != c
    ensures Find(s, c) == Some(i)
  {
  }

  /** The text up to the first `c` (the `[^c]*` of a pattern) and what follows that `c`. */
  function Until(s: string, c: char): Option<Cut>
  {
    match Find(s, c)
    case Some(i) => Some(Cut(s[..i], s[i + 1..]))
    case None => None
  }

  lemma UntilParts(s: string, c: char)
    requires Until(s, c).Some?
    ensures s == Until(s, c).value.field + [c] + Until(s, c).value.rest
    ensures Free(Until(s, c).value.field, c)
  {
    var i := Find(s, c).value;
    assert s == s[..i] + [c] + s[i + 1..];
    assert forall j :: 0 <= j < i ==> s[..i][j] == s[j];
  }

  lemma UntilNone(s: string, c: char)
    requires Until(s, c).None?
    ensures Free(s, c)
  {
  }

  lemma UntilOf(a: string, c: char, b: string)
    requires Free(a, c)
    ensures Until(a + [c] + b, c) == Some(Cut(a, b))
  {
    var s := a + [c] + b;
    assert s[|a|] == c;
    assert forall j :: 0 <= j < |a| ==> s[j] == a[j];
    var i := Find(s, c).value;
    assert i == |a|;
    assert s[..i] == a;
    assert s[i + 1..] == b;
  }

  /** Each field followed by one `c`. */
  function Terminated(fs: seq<string>, c: char): string
  {
    if fs == [] then "" else fs[0] + [c] + Terminated(fs[1..], c)
  }

  /** `n` fields each ended by `c` (the pattern `([^c]*)c` repeated `n` times), and what follows them. */
  function CutFields(s: string, c: char, n: nat): (r: Option<(seq<string>, string)>)
    ensures r.Some? ==> |r.value.0| == n
  {
    if n == 0 then Some(([], s))
    else
      var f :- Until(s, c);
      var more :- CutFields(f.rest, c, n - 1);
      Some(([f.field] + more.0, more.1))
  }

  /** One step of `CutFields`. */
  lemma CutFieldsStep(s: string, c: char, n: nat, f: Cut, more: (seq<string>, string))
    requires n > 0 && Until(s, c) == Some(f) && CutFields(f.rest, c, n - 1) == Some(more)
    ensures CutFields(s, c, n) == Some(([f.field] + more.0, more.1))
  {
  }

  lemma TerminatedHead(fs: seq<string>, c: char, rest: string)
    requires fs != []
    ensures Terminated(fs, c) + rest == fs[0] + [c] + (Terminated(fs[1..], c) + rest)
  {
  }

  lemma FreeCons(x: string, tail: seq<string>, c: char)
    requires Free(x, c) && forall i :: 0 <= i < |tail| ==> Free(tail[i], c)
    ensures forall i :: 0 <= i < |[x] + tail| ==> Free(([x] + tail)[i], c)
  {
  }

  lemma {:induction false} CutFieldsParts(s: string, c: char, n: nat)
    requires CutFields(s, c, n).Some?
    ensures var r := CutFields(s, c, n).value;
      (forall i :: 0 <= i < |r.0| ==> Free(r.0[i], c)) && s == Terminated(r.0, c) + r.1
  {
    if n == 0 {
      assert Terminated([], c) == [];
    } else {
      var f := Until(s, c).value;
      var more := CutFields(f.rest, c, n - 1).value;
      CutFieldsStep(s, c, n, f, more);
      var fs := [f.field] + more.0;
      assert CutFields(s, c, n).value == (fs, more.1);
      UntilParts(s, c);
      assert s == f.field + [c] + f.rest;
      CutFieldsParts(f.rest, c, n - 1);
      assert f.rest == Terminated(more.0, c) + more.1;
      assert fs[0] == f.field && fs[1..] == more.0;
      TerminatedHead(fs, c, more.1);
      assert s == Terminated(fs, c) + more.1;
      FreeCons(f.field, more.0, c);
    }
  }

  lemma {:induction false} CutFieldsOf(fs: seq<string>, c: char, rest: string)
    requires forall i :: 0 <= i < |fs| ==> Free(fs[i], c)
    ensures CutFields(Terminated(fs, c) + rest, c, |fs|) == Some((fs, rest))
  {
    if fs != [] {
      var tail := fs[1..];
      CutFieldsOf(tail, c, rest);
      var s := Terminated(fs, c) + rest;
      var t := Terminated(tail, c) + rest;
      TerminatedHead(fs, c, rest);
      assert Free(fs[0], c);
      UntilOf(fs[0], c, t);
      assert s == fs[0] + [c] + t;
      assert Until(s, c) == Some(Cut(fs[0], t));
      assert |tail| == |fs| - 1;
      assert CutFields(t, c, |fs| - 1) == Some((tail, rest));
      CutFieldsStep(s, c, |fs|, Cut(fs[0], t), (tail, rest));
      assert [fs[0]] + tail == fs;
    } else {
      assert Terminated(fs, c) + rest == rest;
    }
  }

  /** `(.*)$`: the rest of the text, provided it holds no newline. */
  function LineRest(s: string): (r: Option<string>)
    ensures r.Some? <==> AllIn(s, LineChar)
  {
    if AllIn(s, LineChar) then Some(s) else None
  }

  /** `\s+(.*)$`: a run of white space, then the rest of the line, which must hold no newline. */
  function Tail(s: string): (r: Option<string>)
    ensures r.Some? ==> |s| > 0 && IsPatternSpace(s[0])
  {
    var w :- Run(s, Space);
    LineRest(w.rest)
  }

  lemma TailParts(s: string)
    requires Tail(s).Some?
    ensures StartsOutside(Tail(s).value, Space) && AllIn(Tail(s).value, LineChar)
  {
    RunParts(s, Space);
  }

  lemma TailOf(w: string, m: string)
    requires w != [] && AllIn(w, Space) && StartsOutside(m, Space) && AllIn(m, LineChar)
    ensures Tail(w + m) == Some(m)
  {
    RunOf(w, m, Space);
  }

  /** `\s+(\S+)`: a run of white space, then a run of anything else. */
  function SpaceToken(s: string): (r: Option<Cut>)
    ensures r.Some? ==> |s| > 0 && IsPatternSpace(s[0])
  {
    var w :- Run(s, Space);
    Run(w.rest, NonSpace)
  }

  /** A token is a non-empty string without white space. */
  predicate IsToken(t: string)
  {
    t != [] && AllIn(t, NonSpace)
  }

  lemma SpaceTokenParts(s: string)
    requires SpaceToken(s).Some?
    ensures IsToken(SpaceToken(s).value.field) && StartsOutside(SpaceToken(s).value.rest, NonSpace)
  {
    RunParts(s, Space);
    RunParts(Run(s, Space).value.rest, NonSpace);
  }

  lemma SpaceTokenOf(t: string, b: string)
    requires IsToken(t) && StartsOutside(b, NonSpace)
    ensures SpaceToken(" " + t + b) == Some(Cut(t, b))
  {
    assert " " + t + b == " " + (t + b);
    RunOf(" ", t + b, Space);
    RunOf(t, b, NonSpace);
  }

  /** Two tokens read by `\s+(\S+)\s+(\S+)`, and the text after them. */
  datatype Pair = Pair(first: string, second: string, rest: string)

  function TokenPair(s: string): Option<Pair>
  {
    var a :- SpaceToken(s);
    var b :- SpaceToken(a.rest);
    Some(Pair(a.field, b.field, b.rest))
  }

  lemma TokenPairParts(s: string)
    requires TokenPair(s).Some?
    ensures IsToken(TokenPair(s).value.first) && IsToken(TokenPair(s).value.second)
    ensures StartsOutside(TokenPair(s).value.rest, NonSpace)
  {
    SpaceTokenParts(s);
    SpaceTokenParts(SpaceToken(s).value.rest);
  }

  lemma TokenPairOf(a: string, b: string, x: string)
    requires IsToken(a) && IsToken(b) && StartsOutside(x, NonSpace)
    ensures TokenPair(" " + a + (" " + b + x)) == Some(Pair(a, b, x))
  {
    SpaceTokenOf(a, " " + b + x);
    SpaceTokenOf(b, x);
  }

  // ---------------------------------------------------------------------
  // Substrings and case
  // ---------------------------------------------------------------------

  /** `sub` occurs somewhere in `s` (the empty string occurs everywhere). */
  predicate Contains(s: string, sub: string)
  {
    HasPrefix(s, sub) || (|s| > 0 && Contains(s[1..], sub))
  }

  /** `sub` occurs in `s` starting at index `i`. */
  predicate OccursAt(s: string, sub: string, i: nat)
  {
    i + |sub| <= |s| && s[i..i + |sub|] == sub
  }

  lemma {:induction false} ContainsAt(s: string, sub: string, i: nat)
    requires OccursAt(s, sub, i)
    ensures Contains(s, sub)
  {
    if i > 0 {
      assert s[1..][i - 1..i - 1 + |sub|] == s[i..i + |sub|];
      ContainsAt(s[1..], sub, i - 1);
    }
  }

  lemma {:induction false} ContainsWitness(s: string, sub: string) returns (i: nat)
    requires Contains(s, sub)
    ensures OccursAt(s, sub, i)
  {
    if HasPrefix(s, sub) {
      i := 0;
    } else {
      var j := ContainsWitness(s[1..], sub);
      i := j + 1;
      assert s[i..i + |sub|] == s[1..][j..j + |sub|];
    }
  }

  /** The recursive search agrees with the positional definition of a substring. */
  lemma ContainsIff(s: string, sub: string)
    ensures Contains(s, sub) <==> exists i: nat :: OccursAt(s, sub, i)
  {
    if Contains(s, sub) {
      var i := ContainsWitness(s, sub);
    }
    if exists i: nat :: OccursAt(s, sub, i) {
      var i: nat :| OccursAt(s, sub, i);
      ContainsAt(s, sub, i);
    }
  }

  function LowerChar(c: char): char
  {
    if 'A' <= c <= 'Z' then (c as int + 32) as char else c
  }

  /** Lower-casing of the ASCII letters; every other character is kept. */
  function Lower(s: string): (r: string)
    ensures |r| == |s| && forall i :: 0 <= i < |s| ==> r[i] == LowerChar(s[i])
  {
    if s == [] then "" else [LowerChar(s[0])] + Lower(s[1..])
  }

  lemma LowerIdempotent(s: string)
    ensures Lower(Lower(s)) == Lower(s)
  {
  }

  // ---------------------------------------------------------------------
  // Keyword rules
  // ---------------------------------------------------------------------

  /** Some word of the list occurs in `text`. */
  predicate AnyIn(text: string, words: seq<string>)
  {
    exists i :: 0 <= i < |words| && Contains(text, words[i])
  }

  /** If any of `words` occurs in the text, the decision is `outcome`. */
  datatype Rule<T> = Rule(words: seq<string>, outcome: T)

  /** The rule with no index above `i` matching is the first that applies. */
  predicate FirstApplies<T>(text: string, rules: seq<Rule<T>>, i: int)
  {
    0 <= i < |rules| && AnyIn(text, rules[i].words)
    && forall j :: 0 <= j < i ==> !AnyIn(text, rules[j].words)
  }

  /**
   * An ordered keyword heuristic: the outcome of the first rule one of whose
   * words occurs in `text`, or `otherwise` when no rule applies.
   */
  function FirstMatch<T>(text: string, rules: seq<Rule<T>>, otherwise: T): (r: T)
    ensures forall i :: FirstApplies(text, rules, i) ==> r == rules[i].outcome
    ensures (forall i :: 0 <= i < |rules| ==> !AnyIn(text, rules[i].words)) ==> r == otherwise
  {
    if rules == [] then otherwise
    else if AnyIn(text, rules[0].words) then rules[0].outcome
    else
      var r := FirstMatch(text, rules[1..], otherwise);
      assert forall i :: FirstApplies(text, rules, i) ==> i >= 1 && FirstApplies(text, rules[1..], i - 1);
      r
  }

  // ---------------------------------------------------------------------
  // Trimming
  // ---------------------------------------------------------------------

  predicate AllSpace(s: string)
  {
    AllIn(s, UnicodeSpace)
  }

  /** Length of the longest suffix of `s` made of characters of `cls`. */
  function SpanBack(s: string, cls: CharClass): (n: nat)
    ensures n <= |s|
    ensures forall i :: |s| - n <= i < |s| ==> InClass(s[i], cls)
    ensures n < |s| ==> !InClass(s[|s| - n - 1], cls)
  {
    if |s| > 0 && InClass(s[|s| - 1], cls) then 1 + SpanBack(s[..|s| - 1], cls) else 0
  }

  function TrimLeft(s: string): (r: string)
  {
    s[Span(s, UnicodeSpace)..]
  }

  function TrimRight(s: string): (r: string)
  {
    s[..|s| - SpanBack(s, UnicodeSpace)]
  }

  /** `r` is `s` with only white space removed around it, starting at index `i`. */
  predicate TrimmedAt(s: string, r: string, i: nat)
  {
    i + |r| <= |s| && s[i..i + |r|] == r && AllSpace(s[..i]) && AllSpace(s[i + |r|..])
  }

  /** Removal of leading and trailing white space. */
  function TrimSpace(s: string): (r: string)
    ensures exists i: nat :: TrimmedAt(s, r, i)
    ensures Trimmed(r)
  {
    var i := Span(s, UnicodeSpace);
    var l := s[i..];
    var n := SpanBack(l, UnicodeSpace);
    var r := l[..|l| - n];
    assert r == s[i..i + |r|] && s[i + |r|..] == l[|l| - n..];
    assert TrimmedAt(s, r, i);
    assert r != [] ==> r[0] == l[0] && r[|r| - 1] == l[|l| - n - 1];
    assert r == TrimRight(TrimLeft(s));
    TrimRight(TrimLeft(s))
  }

  lemma {:induction false} SpanBackAppend(a: string, b: string, cls: CharClass)
    requires AllIn(b, cls)
    ensures SpanBack(a + b, cls) == SpanBack(a, cls) + |b|
  {
    if b == [] {
      assert a + b == a;
    } else {
      var x := a + b;
      assert x[..|x| - 1] == a + b[..|b| - 1];
      SpanBackAppend(a, b[..|b| - 1], cls);
    }
  }

  lemma {:induction false} SpanAllIn(s: string, cls: CharClass)
    requires AllIn(s, cls)
    ensures Span(s, cls) == |s|
  {
    SpanAppend(s, "", cls);
    assert s + "" == s;
  }

  lemma {:induction false} SpanStops(a: string, b: string, cls: CharClass)
    requires !AllIn(a, cls)
    ensures Span(a + b, cls) == Span(a, cls)
  {
    if InClass(a[0], cls) {
      assert (a + b)[1..] == a[1..] + b;
      assert !AllIn(a[1..], cls) by {
        var k :| 0 <= k < |a| && !InClass(a[k], cls);
        assert a[1..][k - 1] == a[k];
      }
      SpanStops(a[1..], b, cls);
    }
  }

  lemma TrimLeftSkips(pre: string, y: string)
    requires AllSpace(pre)
    ensures TrimLeft(pre + y) == TrimLeft(y)
  {
    SpanAppend(pre, y, UnicodeSpace);
    assert (pre + y)[|pre|..] == y;
  }

  lemma TrimRightSkips(y: string, post: string)
    requires AllSpace(post)
    ensures TrimRight(y + post) == TrimRight(y)
  {
    SpanBackAppend(y, post, UnicodeSpace);
    assert (y + post)[..|y|] == y;
  }

  lemma TrimLeftKeeps(y: string, post: string)
    requires !AllSpace(y)
    ensures TrimLeft(y + post) == TrimLeft(y) + post
  {
    SpanStops(y, post, UnicodeSpace);
    var i := Span(y, UnicodeSpace);
    assert (y + post)[i..] == y[i..] + post;
  }

  lemma TrimLeftAllSpace(y: string)
    requires AllSpace(y)
    ensures TrimLeft(y) == []
  {
    SpanAllIn(y, UnicodeSpace);
  }

  /** A string with no white space at either end is its own trimming. */
  lemma TrimmedFixed(s: string)
    requires Trimmed(s)
    ensures TrimSpace(s) == s
  {
    if s != [] {
      assert Span(s, UnicodeSpace) == 0;
      assert SpanBack(s, UnicodeSpace) == 0;
    }
  }

  /** White space around a string never survives trimming. */
  lemma TrimSurrounded(pre: string, s: string, post: string)
    requires AllSpace(pre) && AllSpace(post)
    ensures TrimSpace(pre + s + post) == TrimSpace(s)
  {
    assert pre + s + post == pre + (s + post);
    TrimLeftSkips(pre, s + post);
    if AllSpace(s) {
      assert AllSpace(s + post);
      TrimLeftAllSpace(s + post);
      TrimLeftAllSpace(s);
    } else {
      TrimLeftKeeps(s, post);
      TrimRightSkips(TrimLeft(s), post);
    }
  }

  // ---------------------------------------------------------------------
  // Splitting and joining
  // ---------------------------------------------------------------------

  /** The pieces joined back with the separator between neighbours. */
  function Join(parts: seq<string>, sep: string): string
  {
    if parts == [] then ""
    else if |parts| == 1 then parts[0]
    else parts[0] + sep + Join(parts[1..], sep)
  }

  /** The pieces of `s` between occurrences of `sep`; there is always at least one. */
  function Split(s: string, sep: char): (parts: seq<string>)
    ensures |parts| >= 1
    ensures forall i :: 0 <= i < |parts| ==> Free(parts[i], sep)
    ensures Join(parts, [sep]) == s
  {
    match Until(s, sep)
    case None =>
      UntilNone(s, sep);
      [s]
    case Some(c) =>
      UntilParts(s, sep);
      var more := Split(c.rest, sep);
      var parts := [c.field] + more;
      assert parts[1..] == more;
      FreeCons(c.field, more, sep);
      parts
  }

  /** Splitting undoes joining when no piece contains the separator. */
  lemma {:induction false} SplitJoin(parts: seq<string>, sep: char)
    requires |parts| >= 1 && forall i :: 0 <= i < |parts| ==> Free(parts[i], sep)
    ensures Split(Join(parts, [sep]), sep) == parts
  {
    if |parts| > 1 {
      var head, tail := parts[0], parts[1..];
      assert forall i :: 0 <= i < |tail| ==> tail[i] == parts[i + 1];
      var rest := Join(tail, [sep]);
      assert Join(parts, [sep]) == head + [sep] + rest;
      UntilOf(head, sep, rest);
      SplitJoin(tail, sep);
      assert Split(Join(parts, [sep]), sep) == [head] + tail;
      assert [head] + tail == parts;
    } else {
      assert Free(parts[0], sep);
      assert Until(parts[0], sep).None?;
    }
  }

  // ---------------------------------------------------------------------
  // key=value tokens
  // ---------------------------------------------------------------------

  /**
   * A `key=value` token split at its first '=', optionally with white space
   * trimmed from the key and from the value; None when there is no '='.
   */
  function Entry(part: string, trim: bool): Option<(string, string)>
  {
    match Until(part, '=')
    case None => None
    case Some(kv) => Some(if trim then (TrimSpace(kv.field), TrimSpace(kv.rest)) else (kv.field, kv.rest))
  }

  /** `part` is a `key=value` token whose key is `k`. */
  predicate KeyedBy(part: string, trim: bool, k: string)
  {
    Entry(part, trim).Some? && Entry(part, trim).value.0 == k
  }

  /** The tokens stored left to right; a later token with the same key overwrites. */
  function KeyValues(parts: seq<string>, trim: bool): map<string, string>
  {
    if parts == [] then map[]
    else
      var m := KeyValues(parts[..|parts| - 1], trim);
      match Entry(parts[|parts| - 1], trim)
      case Some(kv) => m[kv.0 := kv.1]
      case None => m
  }

  /** A key is present exactly when some token carries it. */
  lemma {:induction false} KeyValuesKeys(parts: seq<string>, trim: bool, k: string)
    ensures k in KeyValues(parts, trim) <==> exists i :: 0 <= i < |parts| && KeyedBy(parts[i], trim, k)
  {
    if parts != [] {
      var init := parts[..|parts| - 1];
      KeyValuesKeys(init, trim, k);
      assert forall i :: 0 <= i < |init| ==> init[i] == parts[i];
    }
  }

  /** The value of a key is the one in the last token that carries it. */
  lemma {:induction false} KeyValuesLastWins(parts: seq<string>, trim: bool, k: string)
    requires k in KeyValues(parts, trim)
    ensures exists i :: 0 <= i < |parts| && Entry(parts[i], trim) == Some((k, KeyValues(parts, trim)[k]))
                        && forall j :: i < j < |parts| ==> !KeyedBy(parts[j], trim, k)
  {
    var init := parts[..|parts| - 1];
    var last := parts[|parts| - 1];
    if KeyedBy(last, trim, k) {
      assert Entry(parts[|parts| - 1], trim) == Some((k, KeyValues(parts, trim)[k]));
    } else {
      assert k in KeyValues(init, trim) && KeyValues(init, trim)[k] == KeyValues(parts, trim)[k];
      KeyValuesLastWins(init, trim, k);
      var i :| 0 <= i < |init| && Entry(init[i], trim) == Some((k, KeyValues(init, trim)[k]))
               && forall j :: i < j < |init| ==> !KeyedBy(init[j], trim, k);
      assert init[i] == parts[i];
      assert forall j :: i < j < |init| ==> init[j] == parts[j];
    }
  }

  /** The key of a token never holds '='; a trimmed key and value have no white space around them. */
  lemma EntryShape(part: string, trim: bool)
    requires Entry(part, trim).Some?
    ensures Free(Entry(part, trim).value.0, '=')
    ensures trim ==> Trimmed(Entry(part, trim).value.0) && Trimmed(Entry(part, trim).value.1)
  {
    UntilParts(part, '=');
    var kv := Until(part, '=').value;
    if trim {
      var k := TrimSpace(kv.field);
      var i: nat :| TrimmedAt(kv.field, k, i);
      forall j | 0 <= j < |k| ensures k[j] != '=' {
        assert k[j] == kv.field[i + j];
      }
    }
  }

  /** Stores the `key=value` tokens one by one into a fresh map. */
  method StoreEntries(parts: seq<string>, trim: bool) returns (m: map<string, string>)
    ensures m == KeyValues(parts, trim)
  {
    m := map[];
    var i := 0;
    while i < |parts|
      invariant 0 <= i <= |parts|
      invariant m == KeyValues(parts[..i], trim)
    {
      assert parts[..i + 1][..i] == parts[..i];
      var kv := Until(parts[i], '=');
      if kv.Some? {
        if trim {
          m := m[TrimSpace(kv.value.field) := TrimSpace(kv.value.rest)];
        } else {
          m := m[kv.value.field := kv.value.rest];
        }
      }
      i := i + 1;
    }
    assert parts[..|parts|] == parts;
  }

  /** No white space at either end. */
  predicate Trimmed(s: string)
  {
    s == [] || (!IsUnicodeSpace(s[0]) && !IsUnicodeSpace(s[|s| - 1]))
  }

  /** Left-to-right replacement of every non-overlapping occurrence of `pattern` by `repl`. */
  function ReplaceAll(s: string, pattern: string, repl: string): string
    requires pattern != []
  {
    if |s| == 0 then s
    else if HasPrefix(s, pattern) then repl + ReplaceAll(s[|pattern|..], pattern, repl)
    else [s[0]] + ReplaceAll(s[1..], pattern, repl)
  }

  // ---------------------------------------------------------------------
  // Decimal numbers
  // ---------------------------------------------------------------------

  function DigitValue(c: char): nat
    requires IsDigit(c)
  {
    c as int - '0' as int
  }

  /** The value of a string of decimal digits. */
  function DigitsValue(s: string): nat
    requires AllIn(s, Digit)
  {
    if s == [] then 0 else 10 * DigitsValue(s[..|s| - 1]) + DigitValue(s[|s| - 1])
  }

  /**
   * The value of a decimal string with an optional sign and at least one
   * digit, without any width limit; anything else is a syntax error (None).
   */
  function DecimalValue(s: string): Option<int>
  {
    if |s| > 0 && (s[0] == '-' || s[0] == '+') then
      if AllDigits(s[1..]) then
        var v: int := DigitsValue(s[1..]);
        Some(if s[0] == '-' then -v else v)
      else None
    else if AllDigits(s) then Some(DigitsValue(s))
    else None
  }

  const MinInt64: int := -0x8000_0000_0000_0000
  const MaxInt64: int := 0x7FFF_FFFF_FFFF_FFFF

  predicate InInt64(v: int) { MinInt64 <= v <= MaxInt64 }

  /** The nearest 64-bit value: what a conversion reports alongside a range error. */
  function Clamp64(v: int): (r: int)
    ensures InInt64(r)
    ensures InInt64(v) ==> r == v
  {
    if v < MinInt64 then MinInt64 else if v > MaxInt64 then MaxInt64 else v
  }

  /** Two's-complement wrap-around of a 64-bit signed result. */
  function Wrap64(v: int): (r: int)
    ensures InInt64(r)
    ensures InInt64(v) ==> r == v
    ensures (r - v) % 0x1_0000_0000_0000_0000 == 0
  {
    (v - MinInt64) % 0x1_0000_0000_0000_0000 + MinInt64
  }

  /**
   * Conversion of a decimal string to a 64-bit integer: None on a syntax
   * error and on a value outside the 64-bit range.
   */
  function Atoi(s: string): (r: Option<int>)
    ensures r.Some? <==> DecimalValue(s).Some? && InInt64(DecimalValue(s).value)
    ensures r.Some? ==> r.value == DecimalValue(s).value
  {
    match DecimalValue(s)
    case Some(v) => if InInt64(v) then Some(v) else None
    case None => None
  }

  const MaxUint64: int := 0xFFFF_FFFF_FFFF_FFFF

  /** The text after one optional leading sign. */
  function Unsigned(s: string): (t: string)
    ensures |s| > 0 && (s[0] == '-' || s[0] == '+') ==> t == s[1..]
    ensures !(|s| > 0 && (s[0] == '-' || s[0] == '+')) ==> t == s
  {
    if |s| > 0 && (s[0] == '-' || s[0] == '+') then s[1..] else s
  }

  /** The leading run of digits after the optional sign. */
  function LeadingDigits(s: string): (d: string)
    ensures AllIn(d, Digit)
    ensures d <= Unsigned(s) && StartsOutside(Unsigned(s)[|d|..], Digit)
  {
    Unsigned(s)[..Span(Unsigned(s), Digit)]
  }

  /**
   * The unsigned 64-bit scan of a long decimal string stops with a range
   * error as soon as the digits read so far exceed 2^64 - 1, before it
   * looks at anything after them.
   */
  predicate ScanOverflows(s: string)
  {
    DigitsValue(LeadingDigits(s)) > MaxUint64
  }

  /** The bound a range error reports, by the sign in front. */
  function RangeLimit(s: string): int
  {
    if |s| > 0 && s[0] == '-' then MinInt64 else MaxInt64
  }

  /** A well-formed decimal string is all leading digits after its sign. */
  lemma DecimalDigits(s: string)
    requires DecimalValue(s).Some?
    ensures LeadingDigits(s) == Unsigned(s)
    ensures DecimalValue(s).value == if |s| > 0 && s[0] == '-' then -(DigitsValue(Unsigned(s)) as int) else DigitsValue(Unsigned(s))
  {
    SpanAllIn(Unsigned(s), Digit);
  }

  /**
   * What a caller gets when it ignores the conversion error: the nearest
   * 64-bit value once the digit scan has overflowed (whatever follows the
   * digits), otherwise zero on a syntax error and the value, clamped to 64
   * bits, of a well-formed string.
   */
  function AtoiOrZero(s: string): (r: int)
    ensures InInt64(r)
    ensures DecimalValue(s).Some? ==> r == Clamp64(DecimalValue(s).value)
    ensures Atoi(s).Some? ==> r == Atoi(s).value
    ensures ScanOverflows(s) ==> r == RangeLimit(s)
    ensures DecimalValue(s).None? && !ScanOverflows(s) ==> r == 0
  {
    if ScanOverflows(s) then
      if DecimalValue(s).Some? then DecimalDigits(s); RangeLimit(s) else RangeLimit(s)
    else
      match DecimalValue(s)
      case Some(v) => Clamp64(v)
      case None => 0
  }

  /**
   * A run of digits beyond 2^64 - 1 gives the 64-bit maximum, whatever
   * non-digit text follows it; with a minus sign in front, the minimum.
   */
  lemma OverflowIgnoresTail(digits: string, tail: string)
    requires AllDigits(digits) && DigitsValue(digits) > MaxUint64
    requires StartsOutside(tail, Digit)
    ensures AtoiOrZero(digits + tail) == MaxInt64
    ensures AtoiOrZero("-" + digits + tail) == MinInt64
  {
    LeadingRun(digits, tail);
    var neg := "-" + digits + tail;
    assert neg[1..] == digits + tail;
    assert LeadingDigits(neg) == LeadingDigits(digits + tail);
  }

  lemma LeadingRun(digits: string, tail: string)
    requires AllDigits(digits) && StartsOutside(tail, Digit)
    ensures LeadingDigits(digits + tail) == digits
  {
    SpanAppend(digits, tail, Digit);
    assert Unsigned(digits + tail) == digits + tail;
    assert (digits + tail)[..|digits|] == digits;
  }

  function DigitChar(d: nat): char
    requires d < 10
  {
    ('0' as int + d) as char
  }

  function NatToString(n: nat): (s: string)
    ensures AllDigits(s)
  {
    if n < 10 then [DigitChar(n)] else NatToString(n / 10) + [DigitChar(n % 10)]
  }

  /** Decimal rendering of an integer, with a leading '-' when negative. */
  function IntToString(n: int): string
  {
    if n < 0 then "-" + NatToString(-n) else NatToString(n)
  }

  lemma {:induction false} NatToStringValue(n: nat)
    ensures DigitsValue(NatToString(n)) == n
  {
    if n >= 10 {
      var s := NatToString(n);
      assert s[..|s| - 1] == NatToString(n / 10);
      NatToStringValue(n / 10);
    }
  }

  /** Reading back a rendered integer gives the integer. */
  lemma AtoiIntToString(n: int)
    requires InInt64(n)
    ensures Atoi(IntToString(n)) == Some(n)
  {
    var s := IntToString(n);
    if n < 0 {
      var digits := NatToString(-n);
      NatToStringValue(-n);
      assert s == "-" + digits;
      assert s[1..] == digits;
      assert DecimalValue(s) == Some(n);
    } else {
      var digits := NatToString(n);
      NatToStringValue(n);
      assert s == digits && IsDigit(s[0]);
      assert DecimalValue(s) == Some(n);
    }
  }
}
