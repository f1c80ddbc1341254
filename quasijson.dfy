/**
 * Normalisation of the quasi-JSON text that `npm view` prints for array and object
 * fields (single quotes, bare keys) into JSON, and the JSON recognisers the callers
 * need: an array of strings and a flat object of strings.
 *
 * The two rewrites are `str.replace(/'/g, '"')` (QuoteSwap) and
 * `str.replace(/(\w+):/g, '"$1":')` (QuoteKeys).
 */
module QuasiJson {
  import opened Wrappers
  import opened Text

  // ---------- single quote to double quote ----------

  function SwapChar(c: char): char { if c == '\'' then '"' else c }

  /** `str.replace(/'/g, '"')`: every `'` becomes `"`, every other character stays where it is. */
  function QuoteSwap(s: string): (r: string)
    ensures |r| == |s|
  {
    if s == [] then [] else [SwapChar(s[0])] + QuoteSwap(s[1..])
  }

  /** Every `'` becomes `"`, every other character stays where it is, and no `'` is left. */
  lemma {:induction false} QuoteSwapAt(s: string)
    ensures forall i :: 0 <= i < |s| ==> QuoteSwap(s)[i] == (if s[i] == '\'' then '"' else s[i])
    ensures '\'' !in QuoteSwap(s)
  {
    if s != [] {
      QuoteSwapAt(s[1..]);
      assert forall i :: 1 <= i < |s| ==> QuoteSwap(s)[i] == QuoteSwap(s[1..])[i - 1];
    }
  }

  lemma {:induction false} QuoteSwapAppend(a: string, b: string)
    ensures QuoteSwap(a + b) == QuoteSwap(a) + QuoteSwap(b)
  {
    QuoteSwapAt(a + b);
    QuoteSwapAt(a);
    QuoteSwapAt(b);
    assert forall i :: 0 <= i < |a + b| ==> QuoteSwap(a + b)[i] == (QuoteSwap(a) + QuoteSwap(b))[i];
  }

  /** Text without single quotes is left as it is. */
  lemma {:induction false} QuoteSwapIdentity(s: string)
    requires '\'' !in s
    ensures QuoteSwap(s) == s
  {
    QuoteSwapAt(s);
    assert forall i :: 0 <= i < |s| ==> QuoteSwap(s)[i] == s[i];
  }

  // ---------- bare keys to quoted keys ----------

  /** Length of the run of `\w` characters at the start of `s`. */
  function WordRun(s: string): (n: nat)
    ensures n <= |s|
    ensures forall i :: 0 <= i < n ==> IsWordChar(s[i])
    ensures n < |s| ==> !IsWordChar(s[n])
  {
    if s == [] || !IsWordChar(s[0]) then 0 else 1 + WordRun(s[1..])
  }

  /** The replacement `"$1":` for a matched key. */
  function Wrapped(k: string): string { ['"'] + k + ['"', ':'] }

  /**
   * One step of the scan that `str.replace(/(\w+):/g, '"$1":')` performs: how many
   * characters it consumes from the front of `s`. The expression is tried at each
   * position; `\w+` is greedy, and a shorter run cannot be followed by `:` because
   * it is followed by another word character. So a match starts exactly at the start
   * of a maximal word run that is immediately followed by `:`, and consumes the run
   * and the `:`. A run that is not followed by `:` is copied whole (no position inside
   * it can start a match either); any other character is copied alone.
   */
  function StepLength(s: string): (n: nat)
    requires s != []
    ensures 1 <= n <= |s|
  {
    if !IsWordChar(s[0]) then 1
    else
      var n := WordRun(s);
      if n < |s| && s[n] == ':' then n + 1 else n
  }

  /** What one step of the scan emits for the characters StepLength consumes. */
  function StepOutput(s: string): string
    requires s != []
  {
    if !IsWordChar(s[0]) then [s[0]]
    else
      var n := WordRun(s);
      if n < |s| && s[n] == ':' then Wrapped(s[..n]) else s[..n]
  }

  /** `str.replace(/(\w+):/g, '"$1":')`: every maximal word run directly followed by `:` is wrapped in `"`. */
  function QuoteKeys(s: string): string
    decreases |s|
  {
    if s == [] then [] else StepOutput(s) + QuoteKeys(s[StepLength(s)..])
  }

  /** No `:` in `s` directly follows a word character: there is no bare key to quote. */
  predicate NoBareKey(s: string)
  {
    forall i :: 0 < i < |s| && s[i] == ':' ==> !IsWordChar(s[i - 1])
  }

  /** Key quoting leaves text without bare keys unchanged (keys already quoted, no colons). */
  lemma {:induction false} QuoteKeysIdentity(s: string)
    requires NoBareKey(s)
    ensures QuoteKeys(s) == s
    decreases |s|
  {
    if s != [] {
      var n := StepLength(s);
      assert StepOutput(s) == s[..n];
      QuoteKeysIdentity(s[n..]);
      assert s == s[..n] + s[n..];
    }
  }

  /** A word run that stops inside `a` is not changed by what follows `a`. */
  lemma {:induction false} WordRunPrefix(a: string, b: string)
    requires WordRun(a) < |a|
    ensures WordRun(a + b) == WordRun(a)
  {
    var n := WordRun(a);
    assert forall i :: 0 <= i <= n ==> (a + b)[i] == a[i];
  }

  /** A scan step inside `a` is not changed by what follows `a`, when `a` ends with a non-word character. */
  lemma {:induction false} StepPrefix(a: string, b: string)
    requires a != [] && !IsWordChar(a[|a| - 1])
    ensures StepLength(a + b) == StepLength(a) && StepOutput(a + b) == StepOutput(a)
  {
    assert (a + b)[0] == a[0];
    if IsWordChar(a[0]) {
      var n := WordRun(a);
      assert n < |a|;
      WordRunPrefix(a, b);
      assert (a + b)[..n] == a[..n] && (a + b)[n] == a[n];
    }
  }

  /** Key quoting of a concatenation splits at a boundary where `a` ends with a non-word character. */
  lemma {:induction false} QuoteKeysAppend(a: string, b: string)
    requires a == [] || !IsWordChar(a[|a| - 1])
    ensures QuoteKeys(a + b) == QuoteKeys(a) + QuoteKeys(b)
    decreases |a|
  {
    if a == [] {
      assert a + b == b;
    } else {
      StepPrefix(a, b);
      var n := StepLength(a);
      var rest := a[n..];
      DropAppend(a, b, n);
      QuoteKeysAppend(rest, b);
      QuoteKeysUnfold(a + b);
      QuoteKeysUnfold(a);
      ConcatAssoc(StepOutput(a), QuoteKeys(rest), QuoteKeys(b));
    }
  }

  /** One scan step of key quoting, then the rest of the scan. */
  lemma {:induction false} QuoteKeysUnfold(s: string)
    requires s != []
    ensures QuoteKeys(s) == StepOutput(s) + QuoteKeys(s[StepLength(s)..])
  {
  }

  lemma {:induction false} DropAppend(a: string, b: string, n: nat)
    requires n <= |a|
    ensures (a + b)[n..] == a[n..] + b
    ensures var r := a[n..]; r == [] || r[|r| - 1] == a[|a| - 1]
  {
  }

  lemma {:induction false} ConcatAssoc<T>(x: seq<T>, y: seq<T>, z: seq<T>)
    ensures x + (y + z) == (x + y) + z
  {
  }

  /** A bare key followed by `:` is wrapped in double quotes. */
  lemma {:induction false} QuoteKeysKey(k: string, t: string)
    requires |k| > 0 && forall i :: 0 <= i < |k| ==> IsWordChar(k[i])
    ensures QuoteKeys(k + ":" + t) == Wrapped(k) + QuoteKeys(t)
  {
    var s := k + ":" + t;
    assert WordRun(s) == |k| by {
      assert forall i :: 0 <= i < |k| ==> s[i] == k[i];
      assert !IsWordChar(s[|k|]);
    }
    assert s[..|k|] == k && s[|k| + 1..] == t;
  }

  /** Quote swapping keeps word characters and colons where they are, so word runs keep their length. */
  lemma {:induction false} WordRunSwap(s: string)
    ensures WordRun(QuoteSwap(s)) == WordRun(s)
  {
    var q := QuoteSwap(s);
    QuoteSwapAt(s);
    assert forall i :: 0 <= i < |s| ==> (IsWordChar(q[i]) <==> IsWordChar(s[i]));
  }

  /** A scan step reads the same characters before and after quote swapping. */
  lemma {:induction false} StepSwap(s: string)
    requires s != []
    ensures StepLength(QuoteSwap(s)) == StepLength(s)
    ensures StepOutput(QuoteSwap(s)) == QuoteSwap(StepOutput(s))
  {
    var q := QuoteSwap(s);
    QuoteSwapAt(s);
    WordRunSwap(s);
    if IsWordChar(s[0]) {
      var n := WordRun(s);
      assert q[..n] == s[..n];
      QuoteSwapIdentity(s[..n]);
      if n < |s| && s[n] == ':' {
        QuoteSwapIdentity(Wrapped(s[..n]));
      }
    } else {
      assert QuoteSwap([s[0]]) == [SwapChar(s[0])];
    }
  }

  /** The rewrites commute: swapping quotes before or after quoting keys gives the same text. */
  lemma {:induction false} RewritesCommute(s: string)
    ensures QuoteKeys(QuoteSwap(s)) == QuoteSwap(QuoteKeys(s))
    decreases |s|
  {
    if s != [] {
      var n := StepLength(s);
      var head, tail := s[..n], s[n..];
      StepSwap(s);
      assert QuoteSwap(s)[n..] == QuoteSwap(tail) by {
        assert s == head + tail;
        QuoteSwapAppend(head, tail);
      }
      RewritesCommute(tail);
      QuoteSwapAppend(StepOutput(s), QuoteKeys(tail));
    }
  }

  /** `s` with every double quote removed. */
  function Unquoted(s: string): (r: string)
    ensures '"' !in r
  {
    if s == [] then [] else (if s[0] == '"' then [] else [s[0]]) + Unquoted(s[1..])
  }

  lemma {:induction false} UnquotedAppend(a: string, b: string)
    ensures Unquoted(a + b) == Unquoted(a) + Unquoted(b)
    decreases |a|
  {
    if a == [] {
      assert a + b == b;
    } else {
      assert (a + b)[0] == a[0] && (a + b)[1..] == a[1..] + b;
      UnquotedAppend(a[1..], b);
    }
  }

  /** Key quoting only inserts double quotes: with them erased, the text is unchanged. */
  lemma {:induction false} QuoteKeysOnlyAddsQuotes(s: string)
    ensures Unquoted(QuoteKeys(s)) == Unquoted(s)
    decreases |s|
  {
    if s != [] {
      var n := StepLength(s);
      QuoteKeysUnfold(s);
      StepUnquoted(s);
      QuoteKeysOnlyAddsQuotes(s[n..]);
      UnquotedAppend(StepOutput(s), QuoteKeys(s[n..]));
      UnquotedSplit(s, n);
    }
  }

  lemma {:induction false} UnquotedSplit(s: string, n: nat)
    requires n <= |s|
    ensures Unquoted(s) == Unquoted(s[..n]) + Unquoted(s[n..])
  {
    assert s == s[..n] + s[n..];
    UnquotedAppend(s[..n], s[n..]);
  }

  lemma {:induction false} StepUnquoted(s: string)
    requires s != []
    ensures Unquoted(StepOutput(s)) == Unquoted(s[..StepLength(s)])
  {
    var n := WordRun(s);
    if IsWordChar(s[0]) && n < |s| && s[n] == ':' {
      StepKey(s);
      UnquotedWrapped(s[..n]);
    } else {
      StepCopy(s);
    }
  }

  /** A scan step at a bare key emits the key quoted and consumes the key and its colon. */
  lemma {:induction false} StepKey(s: string)
    requires s != [] && IsWordChar(s[0]) && WordRun(s) < |s| && s[WordRun(s)] == ':'
    ensures StepOutput(s) == Wrapped(s[..WordRun(s)]) && s[..StepLength(s)] == s[..WordRun(s)] + [':']
  {
  }

  /** Any other scan step copies what it consumes. */
  lemma {:induction false} StepCopy(s: string)
    requires s != [] && !(IsWordChar(s[0]) && WordRun(s) < |s| && s[WordRun(s)] == ':')
    ensures StepOutput(s) == s[..StepLength(s)]
  {
  }

  /** Erasing double quotes from a quoted key gives the bare key and its colon. */
  lemma {:induction false} UnquotedWrapped(k: string)
    ensures Unquoted(Wrapped(k)) == Unquoted(k + [':'])
  {
    var colon: string := [':'];
    var t := ['"'] + colon;
    assert Wrapped(k) == ['"'] + (k + t);
    UnquotedCons('"', k + t);
    UnquotedAppend(k, t);
    UnquotedCons('"', colon);
    UnquotedAppend(k, colon);
  }

  lemma {:induction false} UnquotedCons(c: char, x: string)
    ensures Unquoted([c] + x) == (if c == '"' then [] else [c]) + Unquoted(x)
  {
    assert ([c] + x)[1..] == x;
  }

  // ---------- JSON.parse, for the two flat shapes the callers read ----------

  /** White space JSON allows between tokens. */
  predicate IsJsonSpace(c: char) { c == ' ' || c == '\t' || c == '\n' || c == '\r' }

  function SkipSpace(s: string): (r: string)
    ensures |r| <= |s|
    ensures r == [] || !IsJsonSpace(r[0])
  {
    if s != [] && IsJsonSpace(s[0]) then SkipSpace(s[1..]) else s
  }

  /** Skipping white space drops a prefix of `s`, and every character dropped is JSON white space. */
  lemma {:induction false} SkipSpaceDrops(s: string)
    ensures var r := SkipSpace(s);
      r == s[|s| - |r|..] && forall i :: 0 <= i < |s| - |r| ==> IsJsonSpace(s[i])
  {
    if s != [] && IsJsonSpace(s[0]) {
      SkipSpaceDrops(s[1..]);
      var r := SkipSpace(s);
      assert s[1..][|s| - 1 - |r|..] == s[|s| - |r|..];
      forall i | 1 <= i < |s| - |r|
        ensures IsJsonSpace(s[i])
      {
        assert s[i] == s[1..][i - 1];
      }
    } else {
      assert s[0..] == s;
    }
  }

  /** A character JSON allows, unescaped, inside a string literal (escapes are not recognised). */
  predicate IsPlainChar(c: char) { c != '"' && c != '\\' && c >= ' ' }

  predicate IsPlain(s: string) { forall i :: 0 <= i < |s| ==> IsPlainChar(s[i]) }

  function PlainRun(s: string): (n: nat)
    ensures n <= |s| && IsPlain(s[..n])
    ensures n < |s| ==> !IsPlainChar(s[n])
  {
    if s == [] || !IsPlainChar(s[0]) then 0
    else
      var k := PlainRun(s[1..]);
      assert s[..k + 1] == [s[0]] + s[1..][..k];
      k + 1
  }

  /** A value read from the front of a text, and the text left behind it. */
  datatype Parsed<T> = Parsed(value: T, rest: string)

  /** A JSON string literal without escapes at the front of `s`. */
  function ParseString(s: string): (r: Option<Parsed<string>>)
    ensures r.Some? ==> |r.value.rest| < |s| && IsPlain(r.value.value)
  {
    if s == [] || s[0] != '"' then None
    else
      var n := PlainRun(s[1..]);
      assert s[1..n + 1] == s[1..][..n];
      if n + 1 < |s| && s[n + 1] == '"' then Some(Parsed(s[1..n + 1], s[n + 2..])) else None
  }

  /** A string literal that is read is the value between two double quotes, followed by the rest. */
  lemma {:induction false} ParseStringText(s: string)
    requires ParseString(s).Some?
    ensures var p := ParseString(s).value;
      s == Quoted(p.value, '"') + p.rest
  {
    var n := PlainRun(s[1..]);
    assert s[1..n + 1] == s[1..][..n];
    assert s == [s[0]] + s[1..n + 1] + [s[n + 1]] + s[n + 2..];
  }

  /** A list whose first value `x` is read, when the rest of it is read too. */
  function Cons<T>(x: T, tail: Option<Parsed<seq<T>>>): (r: Option<Parsed<seq<T>>>)
    ensures r.Some? <==> tail.Some?
    ensures r.Some? ==> r.value.value == [x] + tail.value.value && r.value.rest == tail.value.rest
  {
    if tail.None? then None else Some(Parsed([x] + tail.value.value, tail.value.rest))
  }

  /** The items of an array from its first item on: `"x"`, then `, "x"` repeated, then `]`. */
  function ParseElements(u: string): (r: Option<Parsed<seq<string>>>)
    ensures r.Some? ==> |r.value.rest| < |u|
    decreases |u|, 0
  {
    var p := ParseString(u);
    if p.None? then None else Cons(p.value.value, ParseItems(p.value.rest))
  }

  /** The items of an array after one of them: `, "x"` repeated, then `]`. */
  function ParseItems(s: string): (r: Option<Parsed<seq<string>>>)
    ensures r.Some? ==> |r.value.rest| < |s|
    decreases |s|, 1
  {
    var t := SkipSpace(s);
    if t == [] then None
    else if t[0] == ']' then Some(Parsed([], t[1..]))
    else if t[0] != ',' then None
    else ParseElements(SkipSpace(t[1..]))
  }

  /** A JSON array of strings at the front of `s`. */
  function ParseArray(s: string): Option<Parsed<seq<string>>>
  {
    var t := SkipSpace(s);
    if t == [] || t[0] != '[' then None
    else
      var u := SkipSpace(t[1..]);
      if u != [] && u[0] == ']' then Some(Parsed([], u[1..])) else ParseElements(u)
  }

  /** `JSON.parse(s)` when the result must be an array of strings; None where it would throw. */
  function ParseStringList(s: string): Option<seq<string>>
  {
    match ParseArray(s)
    case None => None
    case Some(Parsed(xs, rest)) => if SkipSpace(rest) == [] then Some(xs) else None
  }

  /** One `"key": "value"` member at the front of `s`. */
  function ParseMember(s: string): (r: Option<Parsed<(string, string)>>)
    ensures r.Some? ==> |r.value.rest| < |s|
  {
    match ParseString(s)
    case None => None
    case Some(Parsed(k, r1)) =>
      var r2 := SkipSpace(r1);
      if r2 == [] || r2[0] != ':' then None
      else
        match ParseString(SkipSpace(r2[1..]))
        case None => None
        case Some(Parsed(v, r3)) => Some(Parsed((k, v), r3))
  }

  /** The members of an object from its first member on: `"k": "v"`, then `, "k": "v"` repeated, then `}`. */
  function ParseEntries(u: string): (r: Option<Parsed<seq<(string, string)>>>)
    ensures r.Some? ==> |r.value.rest| < |u|
    decreases |u|, 0
  {
    var p := ParseMember(u);
    if p.None? then None else Cons(p.value.value, ParseMembers(p.value.rest))
  }

  /** The members of an object after one of them: `, "k": "v"` repeated, then `}`. */
  function ParseMembers(s: string): (r: Option<Parsed<seq<(string, string)>>>)
    ensures r.Some? ==> |r.value.rest| < |s|
    decreases |s|, 1
  {
    var t := SkipSpace(s);
    if t == [] then None
    else if t[0] == '}' then Some(Parsed([], t[1..]))
    else if t[0] != ',' then None
    else ParseEntries(SkipSpace(t[1..]))
  }

  /** A flat JSON object of strings at the front of `s`: its members in text order, repeats included. */
  function ParseObject(s: string): Option<Parsed<seq<(string, string)>>>
  {
    var t := SkipSpace(s);
    if t == [] || t[0] != '{' then None
    else
      var u := SkipSpace(t[1..]);
      if u != [] && u[0] == '}' then Some(Parsed([], u[1..])) else ParseEntries(u)
  }

  /** The keys of an object's entries, in order. */
  function Keys(entries: seq<(string, string)>): (ks: seq<string>)
    ensures |ks| == |entries|
    ensures forall i :: 0 <= i < |entries| ==> ks[i] == entries[i].0
  {
    if entries == [] then [] else [entries[0].0] + Keys(entries[1..])
  }

  predicate DistinctKeys(entries: seq<(string, string)>)
  {
    forall i, j :: 0 <= i < j < |entries| ==> entries[i].0 != entries[j].0
  }

  /**
   * Setting a property of an object: a new key goes to the end, an existing key
   * keeps its place and takes the new value.
   */
  function Put(entries: seq<(string, string)>, k: string, v: string): (r: seq<(string, string)>)
    ensures k !in Keys(entries) ==> r == entries + [(k, v)]
    ensures k in Keys(entries) ==> |r| == |entries| && Keys(r) == Keys(entries)
    ensures (k, v) in r
  {
    if entries == [] then [(k, v)]
    else if entries[0].0 == k then [(k, v)] + entries[1..]
    else [entries[0]] + Put(entries[1..], k, v)
  }

  /** Setting a key an object already holds changes that member's value and nothing else. */
  lemma {:induction false} PutReplaces(entries: seq<(string, string)>, k: string, v: string)
    requires DistinctKeys(entries) && k in Keys(entries)
    ensures var r := Put(entries, k, v);
      |r| == |entries| && forall i :: 0 <= i < |r| ==> r[i] == if entries[i].0 == k then (k, v) else entries[i]
    decreases |entries|
  {
    var r := Put(entries, k, v);
    if entries[0].0 != k {
      var tail := entries[1..];
      assert Keys(entries) == [entries[0].0] + Keys(tail);
      PutReplaces(tail, k, v);
      forall i | 0 < i < |r|
        ensures r[i] == if entries[i].0 == k then (k, v) else entries[i]
      {
        assert r[i] == Put(tail, k, v)[i - 1] && entries[i] == tail[i - 1];
      }
    } else {
      assert r == [(k, v)] + entries[1..];
      forall i | 0 < i < |r|
        ensures r[i] == entries[i] && entries[i].0 != k
      {
        assert entries[0].0 != entries[i].0;
      }
    }
  }

  /** Setting a key keeps the keys of an object distinct. */
  lemma {:induction false} PutDistinct(entries: seq<(string, string)>, k: string, v: string)
    requires DistinctKeys(entries)
    ensures DistinctKeys(Put(entries, k, v))
  {
    var r := Put(entries, k, v);
    if k in Keys(entries) {
      forall i, j | 0 <= i < j < |r|
        ensures r[i].0 != r[j].0
      {
        assert r[i].0 == Keys(r)[i] == Keys(entries)[i] && r[j].0 == Keys(r)[j] == Keys(entries)[j];
      }
    } else {
      forall i | 0 <= i < |entries|
        ensures entries[i].0 != k
      {
        assert Keys(entries)[i] == entries[i].0;
      }
    }
  }

  /** The object JSON.parse builds never holds the same key twice, whatever the text repeats. */
  lemma {:induction false} CollectKeysDistinct(members: seq<(string, string)>)
    ensures DistinctKeys(Collect(members))
    decreases |members|
  {
    if members != [] {
      var last := members[|members| - 1];
      CollectKeysDistinct(members[..|members| - 1]);
      PutDistinct(Collect(members[..|members| - 1]), last.0, last.1);
    }
  }

  /** The entries of the object JSON.parse builds from members in text order. */
  function Collect(members: seq<(string, string)>): seq<(string, string)>
  {
    if members == [] then []
    else
      var last := members[|members| - 1];
      Put(Collect(members[..|members| - 1]), last.0, last.1)
  }

  /** With no repeated key, the object holds the members as written. */
  lemma {:induction false} CollectDistinct(members: seq<(string, string)>)
    requires DistinctKeys(members)
    ensures Collect(members) == members
  {
    if members != [] {
      var init := members[..|members| - 1];
      var last := members[|members| - 1];
      DistinctInit(members);
      CollectDistinct(init);
      LastKeyNew(members);
      assert Collect(members) == Put(init, last.0, last.1);
      assert init + [last] == members;
    }
  }

  lemma {:induction false} DistinctInit(members: seq<(string, string)>)
    requires members != [] && DistinctKeys(members)
    ensures DistinctKeys(members[..|members| - 1])
  {
    var init := members[..|members| - 1];
    forall i, j | 0 <= i < j < |init|
      ensures init[i].0 != init[j].0
    {
      assert init[i] == members[i] && init[j] == members[j];
    }
  }

  lemma {:induction false} LastKeyNew(members: seq<(string, string)>)
    requires members != [] && DistinctKeys(members)
    ensures members[|members| - 1].0 !in Keys(members[..|members| - 1])
  {
    var init := members[..|members| - 1];
    var ks := Keys(init);
    forall i | 0 <= i < |ks|
      ensures ks[i] != members[|members| - 1].0
    {
      assert ks[i] == members[i].0;
    }
  }

  /** `JSON.parse(s)` when the result must be a flat object of strings; None where it would throw. */
  function ParseFlatObject(s: string): Option<seq<(string, string)>>
  {
    match ParseObject(s)
    case None => None
    case Some(Parsed(ms, rest)) => if SkipSpace(rest) == [] then Some(Collect(ms)) else None
  }

  // ---------- the normalisers of app.js and check-package.js ----------

  /** `parseJsonish`: swap quotes, then parse an array of strings; None stands for `null`. */
  function ParseJsonish(raw: string): Option<seq<string>>
  {
    ParseStringList(QuoteSwap(raw))
  }

  /** The text `parseObjish` hands to JSON.parse: keys quoted first, then quotes swapped. */
  function ObjishText(raw: string): string
  {
    QuoteSwap(QuoteKeys(raw))
  }

  /** `parseObjish`: None stands for `null`. */
  function ParseObjish(raw: string): Option<seq<(string, string)>>
  {
    ParseFlatObject(ObjishText(raw))
  }

  // ---------- the texts npm prints, and the JSON they normalise to ----------

  function Quoted(x: string, q: char): string { [q] + x + [q] }

  /** `, 'y'` for each further item of an array. */
  function ItemsText(ys: seq<string>, q: char): string
  {
    if ys == [] then "" else ", " + Quoted(ys[0], q) + ItemsText(ys[1..], q)
  }

  /** An array of strings as `npm view` prints it (`q` is `'`) and as JSON writes it (`q` is `"`). */
  function ArrayText(xs: seq<string>, q: char): string
  {
    if xs == [] then "[]" else "[ " + Quoted(xs[0], q) + ItemsText(xs[1..], q) + " ]"
  }

  /**
   * `key: 'value'` as `npm view` prints a member (`json` false), or `"key": "value"` (`json` true).
   * npm prints a key bare when it is an identifier and between single quotes otherwise
   * (`'body-parser': '^1.20.0'`).
   */
  function MemberText(e: (string, string), json: bool): string
  {
    (if json then Quoted(e.0, '"') else NpmKey(e.0)) + ": " + Quoted(e.1, if json then '"' else '\'')
  }

  /** An ASCII identifier: a word character run that does not start with a digit. */
  predicate IsIdentifier(k: string) { IsBareKey(k) && !IsDigit(k[0]) }

  /** A key as `npm view` prints it: bare when it is an identifier, single-quoted otherwise. */
  function NpmKey(k: string): string
  {
    if IsIdentifier(k) then k else Quoted(k, '\'')
  }

  /** `, key: 'value'` for each further member of an object. */
  function MembersText(es: seq<(string, string)>, json: bool): string
  {
    if es == [] then "" else ", " + MemberText(es[0], json) + MembersText(es[1..], json)
  }

  /** A flat object of strings as `npm view` prints it (`json` false) and as JSON writes it (`json` true). */
  function ObjectText(es: seq<(string, string)>, json: bool): string
  {
    if es == [] then "{}" else "{ " + MemberText(es[0], json) + MembersText(es[1..], json) + " }"
  }

  /** A string npm prints between single quotes and JSON can hold unescaped. */
  predicate IsPlainItem(x: string) { IsPlain(x) && '\'' !in x }

  /** A bare key: one or more word characters. */
  predicate IsBareKey(k: string) { |k| > 0 && forall i :: 0 <= i < |k| ==> IsWordChar(k[i]) }

  /** A member key quoting and quote swapping carry over intact: a plain key and a plain value, neither with `:`. */
  predicate IsPlainMember(e: (string, string)) { IsPlainItem(e.0) && ':' !in e.0 && IsPlainItem(e.1) && ':' !in e.1 }

  lemma {:induction false} SkipOneSpace(t: string)
    ensures SkipSpace(" " + t) == SkipSpace(t)
  {
    assert (" " + t)[1..] == t;
  }

  lemma {:induction false} PlainRunOf(x: string, t: string)
    requires IsPlain(x) && t != [] && !IsPlainChar(t[0])
    ensures PlainRun(x + t) == |x|
  {
    var s := x + t;
    var n := PlainRun(s);
    assert forall i :: 0 <= i < |x| ==> s[i] == x[i];
    assert s[|x|] == t[0];
  }

  lemma {:induction false} ParseStringOf(x: string, rest: string)
    requires IsPlain(x)
    ensures ParseString(Quoted(x, '"') + rest) == Some(Parsed(x, rest))
  {
    var s := Quoted(x, '"') + rest;
    assert s[1..] == x + (['"'] + rest);
    PlainRunOf(x, ['"'] + rest);
    assert s[1..|x| + 1] == x && s[|x| + 1] == '"' && s[|x| + 2..] == rest;
  }

  lemma {:induction false} ParseItemsClose(rest: string)
    ensures ParseItems(" ]" + rest) == Some(Parsed([], rest))
  {
    assert " ]" + rest == [' ', ']'] + rest;
    SkipToClose(']', rest);
  }

  /** Skipping the space before a closing bracket `c`. */
  lemma {:induction false} SkipToClose(c: char, rest: string)
    requires !IsJsonSpace(c)
    ensures SkipSpace([' ', c] + rest) == [c] + rest && ([c] + rest)[0] == c && ([c] + rest)[1..] == rest
  {
    var s := [' ', c] + rest;
    assert s[1..] == [c] + rest;
  }

  /** Skipping the space after a one-character separator `c`, up to a string literal. */
  lemma {:induction false} SkipAfter(c: char, u: string)
    requires !IsJsonSpace(c) && u != [] && u[0] == '"'
    ensures var s := [c, ' '] + u; SkipSpace(s) == s && s[0] == c && SkipSpace(s[1..]) == u
  {
    var s := [c, ' '] + u;
    assert s[1..] == [' '] + u;
    assert ([' '] + u)[1..] == u;
  }

  lemma {:induction false} ParseElementsOf(x: string, r: string)
    requires IsPlain(x)
    ensures ParseElements(Quoted(x, '"') + r) == Cons(x, ParseItems(r))
  {
    ParseStringOf(x, r);
  }

  lemma {:induction false} ParseItemsNext(u: string)
    requires u != [] && u[0] == '"'
    ensures ParseItems([',', ' '] + u) == ParseElements(u)
  {
    SkipAfter(',', u);
  }

  lemma {:induction false} ItemsTextCons(ys: seq<string>, q: char, tail: string)
    requires ys != []
    ensures ItemsText(ys, q) + tail == [',', ' '] + (Quoted(ys[0], q) + (ItemsText(ys[1..], q) + tail))
  {
  }

  lemma {:induction false} ParseItemsOf(ys: seq<string>, rest: string)
    requires forall y :: y in ys ==> IsPlain(y)
    ensures ParseItems(ItemsText(ys, '"') + (" ]" + rest)) == Some(Parsed(ys, rest))
  {
    if ys == [] {
      assert ItemsText(ys, '"') + (" ]" + rest) == " ]" + rest;
      ParseItemsClose(rest);
    } else {
      var r := ItemsText(ys[1..], '"') + (" ]" + rest);
      ItemsTextCons(ys, '"', " ]" + rest);
      assert ys[0] in ys;
      ParseItemsOf(ys[1..], rest);
      ParseItemsNext(Quoted(ys[0], '"') + r);
      ParseElementsOf(ys[0], r);
      HeadTail(ys);
    }
  }

  lemma {:induction false} ParseArrayFirst(u: string)
    requires u != [] && u[0] == '"'
    ensures ParseArray(['[', ' '] + u) == ParseElements(u)
  {
    SkipAfter('[', u);
  }

  lemma {:induction false} ArrayTextCons(xs: seq<string>, q: char)
    requires xs != []
    ensures ArrayText(xs, q) == ['[', ' '] + (Quoted(xs[0], q) + (ItemsText(xs[1..], q) + (" ]" + "")))
  {
  }

  /** JSON.parse reads back an array of strings as JSON writes it. */
  lemma {:induction false} ArrayRoundTrip(xs: seq<string>)
    requires forall x :: x in xs ==> IsPlain(x)
    ensures ParseStringList(ArrayText(xs, '"')) == Some(xs)
  {
    if xs == [] {
      EmptyArrayOf(xs);
    } else {
      FilledArrayOf(xs);
    }
  }

  lemma {:induction false} EmptyArrayOf(xs: seq<string>)
    requires xs == []
    ensures ParseStringList(ArrayText(xs, '"')) == Some(xs)
  {
    assert ArrayText(xs, '"') == ['[', ']'] + [];
    ParseArrayEmpty([]);
  }

  lemma {:induction false} ParseArrayEmpty(rest: string)
    ensures ParseArray(['[', ']'] + rest) == Some(Parsed([], rest))
  {
    var s := ['[', ']'] + rest;
    var u := [']'] + rest;
    assert s[1..] == u && u[1..] == rest;
    NoSpaceFirst(s);
    NoSpaceFirst(u);
  }

  lemma {:induction false} FilledArrayOf(xs: seq<string>)
    requires xs != [] && forall x :: x in xs ==> IsPlain(x)
    ensures ParseArray(ArrayText(xs, '"')) == Some(Parsed(xs, ""))
  {
    var x, tail := xs[0], xs[1..];
    var r := ItemsText(tail, '"') + (" ]" + "");
    ArrayTextCons(xs, '"');
    assert x in xs;
    assert forall y :: y in tail ==> y in xs;
    ParseItemsOf(tail, "");
    ParseArrayFirst(Quoted(x, '"') + r);
    ParseElementsOf(x, r);
    HeadTail(xs);
  }

  lemma {:induction false} SwapQuoted(x: string)
    requires '\'' !in x
    ensures QuoteSwap(Quoted(x, '\'')) == Quoted(x, '"')
  {
    QuoteSwapAppend(['\''] + x, ['\'']);
    QuoteSwapAppend(['\''], x);
    QuoteSwapIdentity(x);
  }

  lemma {:induction false} SwapItemsText(ys: seq<string>)
    requires forall y :: y in ys ==> '\'' !in y
    ensures QuoteSwap(ItemsText(ys, '\'')) == ItemsText(ys, '"')
  {
    if ys != [] {
      assert ys[0] in ys;
      QuoteSwapAppend(", " + Quoted(ys[0], '\''), ItemsText(ys[1..], '\''));
      QuoteSwapAppend(", ", Quoted(ys[0], '\''));
      QuoteSwapIdentity(", ");
      SwapQuoted(ys[0]);
      SwapItemsText(ys[1..]);
    }
  }

  /** Swapping the quotes of an array as npm prints it gives the array as JSON writes it. */
  lemma {:induction false} SwapArrayText(xs: seq<string>)
    requires forall x :: x in xs ==> '\'' !in x
    ensures QuoteSwap(ArrayText(xs, '\'')) == ArrayText(xs, '"')
  {
    if xs == [] {
      QuoteSwapIdentity("[]");
    } else {
      assert xs[0] in xs;
      var a, b, c, d := "[ ", Quoted(xs[0], '\''), ItemsText(xs[1..], '\''), " ]";
      QuoteSwapAppend(a + b + c, d);
      QuoteSwapAppend(a + b, c);
      QuoteSwapAppend(a, b);
      QuoteSwapIdentity(a);
      QuoteSwapIdentity(d);
      SwapQuoted(xs[0]);
      SwapItemsText(xs[1..]);
    }
  }

  /** `parseJsonish` reads the version list npm prints back into the same strings. */
  lemma {:induction false} JsonishRoundTrip(xs: seq<string>)
    requires forall x :: x in xs ==> IsPlainItem(x)
    ensures ParseJsonish(ArrayText(xs, '\'')) == Some(xs)
  {
    SwapArrayText(xs);
    ArrayRoundTrip(xs);
  }

  // ---------- objects ----------

  lemma {:induction false} MemberTextJson(e: (string, string), rest: string)
    ensures MemberText(e, true) + rest == Quoted(e.0, '"') + ([':', ' '] + (Quoted(e.1, '"') + rest))
  {
  }

  lemma {:induction false} ParseMemberOf(e: (string, string), rest: string)
    requires IsPlain(e.0) && IsPlain(e.1)
    ensures ParseMember(MemberText(e, true) + rest) == Some(Parsed(e, rest))
  {
    var r1 := [':', ' '] + (Quoted(e.1, '"') + rest);
    MemberTextJson(e, rest);
    ParseStringOf(e.0, r1);
    SkipAfter(':', Quoted(e.1, '"') + rest);
    ParseStringOf(e.1, rest);
  }

  lemma {:induction false} ParseEntriesOf(e: (string, string), r: string)
    requires IsPlain(e.0) && IsPlain(e.1)
    ensures ParseEntries(MemberText(e, true) + r) == Cons(e, ParseMembers(r))
  {
    ParseMemberOf(e, r);
  }

  lemma {:induction false} ParseMembersNext(u: string)
    requires u != [] && u[0] == '"'
    ensures ParseMembers([',', ' '] + u) == ParseEntries(u)
  {
    SkipAfter(',', u);
  }

  lemma {:induction false} ParseMembersClose(rest: string)
    ensures ParseMembers(" }" + rest) == Some(Parsed([], rest))
  {
    assert " }" + rest == [' ', '}'] + rest;
    SkipToClose('}', rest);
  }

  lemma {:induction false} MembersTextCons(es: seq<(string, string)>, json: bool, tail: string)
    requires es != []
    ensures MembersText(es, json) + tail == [',', ' '] + (MemberText(es[0], json) + (MembersText(es[1..], json) + tail))
  {
  }

  /** Both sides of every entry are plain strings. */
  predicate PlainEntries(es: seq<(string, string)>)
  {
    forall i :: 0 <= i < |es| ==> IsPlain(es[i].0) && IsPlain(es[i].1)
  }

  lemma {:induction false} PlainEntriesTail(es: seq<(string, string)>)
    requires es != [] && PlainEntries(es)
    ensures IsPlain(es[0].0) && IsPlain(es[0].1) && PlainEntries(es[1..])
  {
    assert forall i :: 0 <= i < |es[1..]| ==> es[1..][i] == es[i + 1];
  }

  lemma {:induction false} MemberTextStart(e: (string, string), r: string)
    ensures var u := MemberText(e, true) + r; u != [] && u[0] == '"'
  {
  }

  lemma {:induction false} ParseMembersStep(es: seq<(string, string)>, rest: string)
    requires es != [] && IsPlain(es[0].0) && IsPlain(es[0].1)
    requires ParseMembers(MembersText(es[1..], true) + (" }" + rest)) == Some(Parsed(es[1..], rest))
    ensures ParseMembers(MembersText(es, true) + (" }" + rest)) == Some(Parsed(es, rest))
  {
    var r := MembersText(es[1..], true) + (" }" + rest);
    var u := MemberText(es[0], true) + r;
    MembersTextCons(es, true, " }" + rest);
    MemberTextStart(es[0], r);
    ParseMembersNext(u);
    ParseEntriesOf(es[0], r);
    ConsOf(es[0], es[1..], rest);
    HeadTail(es);
  }

  lemma {:induction false} ParseMembersOf(es: seq<(string, string)>, rest: string)
    requires PlainEntries(es)
    ensures ParseMembers(MembersText(es, true) + (" }" + rest)) == Some(Parsed(es, rest))
  {
    if es == [] {
      assert MembersText(es, true) + (" }" + rest) == " }" + rest;
      ParseMembersClose(rest);
    } else {
      PlainEntriesTail(es);
      ParseMembersOf(es[1..], rest);
      ParseMembersStep(es, rest);
    }
  }

  lemma {:induction false} ParseObjectFirst(u: string)
    requires u != [] && u[0] == '"'
    ensures ParseObject(['{', ' '] + u) == ParseEntries(u)
  {
    SkipAfter('{', u);
  }

  lemma {:induction false} ObjectTextCons(es: seq<(string, string)>, json: bool)
    requires es != []
    ensures ObjectText(es, json) == ['{', ' '] + (MemberText(es[0], json) + (MembersText(es[1..], json) + (" }" + "")))
  {
  }

  lemma {:induction false} ParseObjectEntry(e: (string, string), r: string)
    requires IsPlain(e.0) && IsPlain(e.1)
    ensures ParseObject(['{', ' '] + (MemberText(e, true) + r)) == Cons(e, ParseMembers(r))
  {
    MemberTextStart(e, r);
    ParseObjectFirst(MemberText(e, true) + r);
    ParseEntriesOf(e, r);
  }

  lemma {:induction false} ParseObjectEmpty(rest: string)
    ensures ParseObject(['{', '}'] + rest) == Some(Parsed([], rest))
  {
    var s := ['{', '}'] + rest;
    var u := ['}'] + rest;
    assert s[1..] == u && u[1..] == rest;
    NoSpaceFirst(s);
    NoSpaceFirst(u);
  }

  lemma {:induction false} NoSpaceFirst(s: string)
    requires s != [] && !IsJsonSpace(s[0])
    ensures SkipSpace(s) == s
  {
  }

  lemma {:induction false} ParseObjectOf(es: seq<(string, string)>)
    requires PlainEntries(es)
    ensures ParseObject(ObjectText(es, true)) == Some(Parsed(es, ""))
  {
    if es == [] {
      EmptyObjectOf(es);
    } else {
      FilledObjectOf(es);
    }
  }

  lemma {:induction false} EmptyObjectOf(es: seq<(string, string)>)
    requires es == []
    ensures ParseObject(ObjectText(es, true)) == Some(Parsed(es, ""))
  {
    ParseObjectEmpty("");
    assert ObjectText(es, true) == ['{', '}'] + "";
  }

  lemma {:induction false} FilledObjectOf(es: seq<(string, string)>)
    requires es != [] && PlainEntries(es)
    ensures ParseObject(ObjectText(es, true)) == Some(Parsed(es, ""))
  {
    var e, tail := es[0], es[1..];
    var r := MembersText(tail, true) + (" }" + "");
    PlainEntriesTail(es);
    ParseMembersOf(tail, "");
    ObjectTextCons(es, true);
    ParseObjectEntry(e, r);
    ConsOf(e, tail, "");
    HeadTail(es);
  }

  lemma {:induction false} HeadTail<T>(s: seq<T>)
    requires s != []
    ensures [s[0]] + s[1..] == s
  {
  }

  lemma {:induction false} ConsOf<T>(x: T, xs: seq<T>, rest: string)
    ensures Cons(x, Some(Parsed(xs, rest))) == Some(Parsed([x] + xs, rest))
  {
  }

  /** JSON.parse reads back a flat object of strings as JSON writes it (a repeated key keeps its first place and its last value). */
  lemma {:induction false} ObjectRoundTrip(es: seq<(string, string)>)
    requires PlainEntries(es)
    ensures ParseFlatObject(ObjectText(es, true)) == Some(Collect(es))
  {
    ParseObjectOf(es);
  }

  // ---------- from what npm prints to JSON ----------

  /** The normalisation splits at a boundary where `a` ends with a non-word character. */
  lemma {:induction false} ObjishAppend(a: string, b: string)
    requires a == [] || !IsWordChar(a[|a| - 1])
    ensures ObjishText(a + b) == ObjishText(a) + ObjishText(b)
  {
    QuoteKeysAppend(a, b);
    QuoteSwapAppend(QuoteKeys(a), QuoteKeys(b));
  }

  /** Text that is already strict JSON in these respects (no single quotes, no bare keys) is left as it is. */
  lemma {:induction false} ObjishIdentity(s: string)
    requires '\'' !in s && NoBareKey(s)
    ensures ObjishText(s) == s
  {
    QuoteKeysIdentity(s);
    QuoteSwapIdentity(s);
  }

  lemma {:induction false} NpmMemberShape(e: (string, string))
    ensures MemberText(e, false) == NpmKey(e.0) + ":" + (" " + Quoted(e.1, '\''))
    ensures MemberText(e, true) == Wrapped(e.0) + (" " + Quoted(e.1, '"'))
    ensures MemberText(e, true) == Quoted(e.0, '"') + (":" + (" " + Quoted(e.1, '"')))
  {
  }

  /** A member as npm prints it becomes the member as JSON writes it. */
  lemma {:induction false} NormaliseMember(e: (string, string))
    requires IsPlainMember(e)
    ensures ObjishText(MemberText(e, false)) == MemberText(e, true)
  {
    if IsIdentifier(e.0) {
      NormaliseBareMember(e);
    } else {
      NormaliseQuotedMember(e);
    }
  }

  /** An identifier key is quoted by the key rewrite. */
  lemma {:induction false} NormaliseBareMember(e: (string, string))
    requires IsPlainMember(e) && IsIdentifier(e.0)
    ensures ObjishText(MemberText(e, false)) == MemberText(e, true)
  {
    var (k, v) := e;
    var t := " " + Quoted(v, '\'');
    NpmMemberShape(e);
    QuoteKeysKey(k, t);
    ValueKeysIdentity(v);
    QuoteSwapAppend(Wrapped(k), t);
    WrappedSwap(k);
    ValueSwap(v);
  }

  /** A single-quoted key is left alone by the key rewrite and gets double quotes from the swap. */
  lemma {:induction false} NormaliseQuotedMember(e: (string, string))
    requires IsPlainMember(e) && !IsIdentifier(e.0)
    ensures ObjishText(MemberText(e, false)) == MemberText(e, true)
  {
    var (k, v) := e;
    var t := " " + Quoted(v, '\'');
    calc {
      ObjishText(MemberText(e, false));
    == { NpmQuotedShape(e); }
      ObjishText(Quoted(k, '\'') + (":" + t));
    == { ObjishAppend(Quoted(k, '\''), ":" + t); }
      ObjishText(Quoted(k, '\'')) + ObjishText(":" + t);
    == { QuotedKeyText(k); ColonThen(t); }
      Quoted(k, '"') + (":" + ObjishText(t));
    == { ValueNormalises(v); }
      Quoted(k, '"') + (":" + (" " + Quoted(v, '"')));
    == { NpmMemberShape(e); }
      MemberText(e, true);
    }
  }

  lemma {:induction false} NpmQuotedShape(e: (string, string))
    requires !IsIdentifier(e.0)
    ensures MemberText(e, false) == Quoted(e.0, '\'') + (":" + (" " + Quoted(e.1, '\'')))
  {
  }

  /** A value without `:` or `'` normalises from single to double quotes. */
  lemma {:induction false} ValueNormalises(v: string)
    requires ':' !in v && '\'' !in v
    ensures ObjishText(" " + Quoted(v, '\'')) == " " + Quoted(v, '"')
  {
    ValueKeysIdentity(v);
    ValueSwap(v);
  }

  lemma {:induction false} ColonThen(t: string)
    ensures ObjishText(":" + t) == ":" + ObjishText(t)
  {
    ObjishAppend(":", t);
    ObjishIdentity(":");
  }

  /** A single-quoted key without `:` normalises to the double-quoted key. */
  lemma {:induction false} QuotedKeyText(k: string)
    requires IsPlainItem(k) && ':' !in k
    ensures ObjishText(Quoted(k, '\'')) == Quoted(k, '"')
  {
    var q := Quoted(k, '\'');
    forall i | 0 <= i < |q|
      ensures q[i] != ':'
    {
      if 1 <= i < |q| - 1 {
        assert q[i] == k[i - 1] && k[i - 1] in k;
      }
    }
    assert NoBareKey(q);
    QuoteKeysIdentity(q);
    SwapQuoted(k);
  }

  /** A value without colons holds no key to quote. */
  lemma {:induction false} ValueKeysIdentity(v: string)
    requires ':' !in v
    ensures QuoteKeys(" " + Quoted(v, '\'')) == " " + Quoted(v, '\'')
  {
    var t := " " + Quoted(v, '\'');
    forall i | 0 <= i < |t|
      ensures t[i] != ':'
    {
      if 2 <= i < |t| - 1 {
        assert t[i] == v[i - 2] && v[i - 2] in v;
      }
    }
    assert NoBareKey(t);
    QuoteKeysIdentity(t);
  }

  /** A quoted bare key holds no single quote. */
  lemma {:induction false} WrappedSwap(k: string)
    requires IsBareKey(k)
    ensures QuoteSwap(Wrapped(k)) == Wrapped(k)
  {
    var w := Wrapped(k);
    forall i | 0 <= i < |w|
      ensures w[i] != '\''
    {
      if 1 <= i < |w| - 2 {
        assert w[i] == k[i - 1] && IsWordChar(k[i - 1]);
      }
    }
    QuoteSwapIdentity(w);
  }

  lemma {:induction false} ValueSwap(v: string)
    requires '\'' !in v
    ensures QuoteSwap(" " + Quoted(v, '\'')) == " " + Quoted(v, '"')
  {
    QuoteSwapAppend(" ", Quoted(v, '\''));
    QuoteSwapIdentity(" ");
    SwapQuoted(v);
  }

  /** A member as npm prints it, followed by more text. */
  lemma {:induction false} NormaliseMemberThen(e: (string, string), r: string)
    requires IsPlainMember(e)
    ensures ObjishText(MemberText(e, false) + r) == MemberText(e, true) + ObjishText(r)
  {
    NpmMemberEnds(e);
    ObjishAppend(MemberText(e, false), r);
    NormaliseMember(e);
  }

  /** Punctuation `p` (no quote, no key, not ending in a word character) is kept as it is. */
  lemma {:induction false} ObjishAfter(p: string, x: string)
    requires p != [] && '\'' !in p && NoBareKey(p) && !IsWordChar(p[|p| - 1])
    ensures ObjishText(p + x) == p + ObjishText(x)
  {
    ObjishAppend(p, x);
    ObjishIdentity(p);
  }

  lemma {:induction false} NpmMemberEnds(e: (string, string))
    ensures var m := MemberText(e, false); m != [] && m[|m| - 1] == '\''
  {
  }

  predicate PlainMembers(es: seq<(string, string)>)
  {
    forall i :: 0 <= i < |es| ==> IsPlainMember(es[i])
  }

  lemma {:induction false} PlainMembersTail(es: seq<(string, string)>)
    requires es != [] && PlainMembers(es)
    ensures IsPlainMember(es[0]) && PlainMembers(es[1..])
  {
    assert forall i :: 0 <= i < |es[1..]| ==> es[1..][i] == es[i + 1];
  }

  lemma {:induction false} NormaliseMembers(es: seq<(string, string)>, tail: string)
    requires PlainMembers(es)
    ensures ObjishText(MembersText(es, false) + tail) == MembersText(es, true) + ObjishText(tail)
  {
    if es == [] {
      assert MembersText(es, false) + tail == tail;
    } else {
      var r := MembersText(es[1..], false) + tail;
      MembersTextCons(es, false, tail);
      MembersTextCons(es, true, ObjishText(tail));
      PlainMembersTail(es);
      NormaliseMembers(es[1..], tail);
      ObjishAfter([',', ' '], MemberText(es[0], false) + r);
      NormaliseMemberThen(es[0], r);
    }
  }

  /** An object of plain strings as npm prints it normalises to the same object as JSON writes it. */
  lemma {:induction false} NormaliseObject(es: seq<(string, string)>)
    requires PlainMembers(es)
    ensures ObjishText(ObjectText(es, false)) == ObjectText(es, true)
  {
    if es == [] {
      ObjishIdentity("{}");
    } else {
      var r := MembersText(es[1..], false) + (" }" + "");
      ObjectTextCons(es, false);
      ObjectTextCons(es, true);
      PlainMembersTail(es);
      NormaliseMembers(es[1..], " }" + "");
      ObjishIdentity(" }" + "");
      ObjishAfter(['{', ' '], MemberText(es[0], false) + r);
      NormaliseMemberThen(es[0], r);
    }
  }

  /** `parseObjish` reads a flat object npm prints back into its entries. */
  lemma {:induction false} ObjishRoundTrip(es: seq<(string, string)>)
    requires PlainMembers(es)
    ensures ParseObjish(ObjectText(es, false)) == Some(Collect(es))
  {
    NormaliseObject(es);
    assert PlainEntries(es) by {
      forall i | 0 <= i < |es|
        ensures IsPlain(es[i].0)
      {
        assert IsPlainMember(es[i]);
      }
    }
    ObjectRoundTrip(es);
  }

  // ---------- examples ----------

  /** The version list npm prints for a package with two releases. */
  lemma {:induction false} JsonishExample()
    ensures ParseJsonish("[ '1.0.0', '1.1.0' ]") == Some(["1.0.0", "1.1.0"])
  {
    var xs := ["1.0.0", "1.1.0"];
    assert ArrayText(xs, '\'') == "[ '1.0.0', '1.1.0' ]";
    JsonishRoundTrip(xs);
  }

  lemma {:induction false} ObjishExampleText(es: seq<(string, string)>)
    requires es == [("dep", "^1.0.0"), ("x", "...")]
    ensures ObjectText(es, false) == "{ dep: '^1.0.0', x: '...' }"
  {
    var m0, m1 := "dep: '^1.0.0'", "x: '...'";
    ObjectTextTwo(es[0], es[1], false);
    ExampleIdentifiers(es[0].0, es[1].0);
    ExampleMember(es[0], m0);
    ExampleMember(es[1], m1);
    ExampleJoin(m0, m1, ObjectText(es, false));
  }

  lemma {:induction false} ExampleJoin(m0: string, m1: string, t: string)
    requires m0 == "dep: '^1.0.0'" && m1 == "x: '...'"
    requires t == "{ " + m0 + ", " + m1 + " }"
    ensures t == "{ dep: '^1.0.0', x: '...' }"
  {
  }

  lemma {:induction false} ObjectTextTwo(e0: (string, string), e1: (string, string), json: bool)
    ensures ObjectText([e0, e1], json) == "{ " + MemberText(e0, json) + ", " + MemberText(e1, json) + " }"
  {
    assert [e0, e1][1..] == [e1];
    assert MembersText([e1], json) == ", " + MemberText(e1, json) + "";
  }

  lemma {:induction false} ExampleIdentifiers(a: string, b: string)
    requires a == "dep" && b == "x"
    ensures IsIdentifier(a) && IsIdentifier(b)
  {
  }

  lemma {:induction false} ExampleMember(e: (string, string), text: string)
    requires IsIdentifier(e.0) && text == e.0 + ": '" + e.1 + "'"
    ensures MemberText(e, false) == text
  {
  }

  lemma {:induction false} ObjishExampleMembers(es: seq<(string, string)>)
    requires es == [("dep", "^1.0.0"), ("x", "...")]
    ensures PlainMembers(es) && DistinctKeys(es)
  {
    assert IsPlainMember(es[0]) && IsPlainMember(es[1]);
  }

  /** The dependency map in the comment of `parseObjish`, `{ dep: '^1.0.0', x: '...' }`. */
  lemma {:induction false} ObjishExample()
    ensures ParseObjish("{ dep: '^1.0.0', x: '...' }") == Some([("dep", "^1.0.0"), ("x", "...")])
  {
    var es := [("dep", "^1.0.0"), ("x", "...")];
    ObjishExampleText(es);
    ObjishExampleMembers(es);
    ObjishRoundTrip(es);
    CollectDistinct(es);
  }

  /** A dependency whose name is not an identifier, as npm prints it between single quotes. */
  lemma {:induction false} ObjishQuotedExample(k: string, v: string)
    requires k == "body-parser" && v == "^1.20.0"
    ensures ParseObjish("{ 'body-parser': '^1.20.0' }") == Some([(k, v)])
  {
    var es := [(k, v)];
    var m := "'body-parser': '^1.20.0'";
    ObjectTextOne(es[0], false);
    QuotedExampleMember(es[0], m);
    QuotedExampleJoin(m, ObjectText(es, false));
    assert PlainMembers(es) by {
      assert IsPlainMember(es[0]);
    }
    ObjishRoundTrip(es);
    CollectDistinct(es);
  }

  lemma {:induction false} ObjectTextOne(e: (string, string), json: bool)
    ensures ObjectText([e], json) == "{ " + MemberText(e, json) + " }"
  {
    assert [e][1..] == [];
  }

  lemma {:induction false} QuotedExampleMember(e: (string, string), text: string)
    requires e == ("body-parser", "^1.20.0") && text == "'body-parser': '^1.20.0'"
    ensures MemberText(e, false) == text
  {
    assert !IsWordChar(e.0[4]);
    assert NpmKey(e.0) == "'body-parser'";
  }

  lemma {:induction false} QuotedExampleJoin(m: string, t: string)
    requires m == "'body-parser': '^1.20.0'" && t == "{ " + m + " }"
    ensures t == "{ 'body-parser': '^1.20.0' }"
  {
  }

  lemma {:induction false} NotArray(s: string)
    requires s != [] && !IsJsonSpace(s[0]) && s[0] != '['
    ensures ParseStringList(s) == None
  {
    NoSpaceFirst(s);
  }

  lemma {:induction false} NotObject(s: string)
    requires s != [] && !IsJsonSpace(s[0]) && s[0] != '{'
    ensures ParseFlatObject(s) == None
  {
    NoSpaceFirst(s);
  }

  /** Text that starts with a bare word which is not a key is rejected in both dialects. */
  lemma {:induction false} BareWordNotJson(s: string)
    requires s != [] && IsWordChar(s[0]) && (WordRun(s) == |s| || s[WordRun(s)] != ':')
    ensures ParseJsonish(s) == None && ParseObjish(s) == None
  {
    BareWordNotList(s);
    BareWordNotObject(s);
  }

  lemma {:induction false} BareWordNotList(s: string)
    requires s != [] && IsWordChar(s[0])
    ensures ParseJsonish(s) == None
  {
    SwapFirst(s);
    NotArray(QuoteSwap(s));
  }

  lemma {:induction false} BareWordNotObject(s: string)
    requires s != [] && IsWordChar(s[0]) && (WordRun(s) == |s| || s[WordRun(s)] != ':')
    ensures ParseObjish(s) == None
  {
    QuoteKeysFirst(s);
    SwappedNotObject(QuoteKeys(s));
  }

  lemma {:induction false} SwappedNotObject(q: string)
    requires q != [] && IsWordChar(q[0])
    ensures ParseFlatObject(QuoteSwap(q)) == None
  {
    SwapFirst(q);
    NotObject(QuoteSwap(q));
  }

  /** Quote swapping keeps a first character that is not a quote. */
  lemma {:induction false} SwapFirst(q: string)
    requires q != [] && q[0] != '\''
    ensures QuoteSwap(q) != [] && QuoteSwap(q)[0] == q[0]
  {
  }

  /** A word that is not a key stays at the front of the text. */
  lemma {:induction false} QuoteKeysFirst(s: string)
    requires s != [] && IsWordChar(s[0]) && (WordRun(s) == |s| || s[WordRun(s)] != ':')
    ensures QuoteKeys(s) != [] && QuoteKeys(s)[0] == s[0]
  {
    var n := WordRun(s);
    assert StepOutput(s) == s[..n];
    assert QuoteKeys(s) == StepOutput(s) + QuoteKeys(s[StepLength(s)..]);
  }

  /** Text that is not JSON after normalisation is a parse failure in both dialects. */
  lemma {:induction false} NotJsonExample(s: string)
    requires s == "not json at all"
    ensures ParseJsonish(s) == None && ParseObjish(s) == None
  {
    assert s[0] == 'n' && s[1] == 'o' && s[2] == 't' && s[3] == ' ';
    assert WordRun(s) == 3;
    BareWordNotJson(s);
  }

  // ---------- ranges with a colon ----------

  /**
   * The colon limitation of `parseObjish`: npm prints alias, git-host, file and workspace
   * ranges such as `npm:pkg@^1`, `github:user/repo`, `file:../dir` and `workspace:*` with a
   * word and a colon at the front of the value. The key rewrite quotes that word too, so the
   * value reads as the empty string `""`, the word follows it where `,` or `}` must stand, and
   * JSON.parse throws: `parseObjish` gives `null` for the whole listing.
   */
  lemma {:induction false} ColonRangeNotObject(k: string, w: string, r: string)
    requires IsIdentifier(k) && IsBareKey(w)
    ensures ParseObjish("{ " + k + ": '" + w + ":" + r) == None
  {
    var rest := w + ("\":" + QuoteSwap(QuoteKeys(r)));
    ColonRangeText(k, w, r);
    WordsPlain(k);
    assert rest[0] == w[0];
    ParseObjectEntry((k, ""), rest);
    NoSpaceFirst(rest);
  }

  /** What JSON.parse receives for such a listing: the key, an empty value, and the word behind it. */
  lemma {:induction false} ColonRangeText(k: string, w: string, r: string)
    requires IsBareKey(k) && IsBareKey(w)
    ensures ObjishText("{ " + k + ": '" + w + ":" + r)
      == ['{', ' '] + (MemberText((k, ""), true) + (w + ("\":" + QuoteSwap(QuoteKeys(r)))))
  {
    var t := QuoteKeys(r);
    ColonRangeKeys(k, w, r);
    ColonRangeSwap(k, w, t);
  }

  /** The key rewrite quotes both the key and the word at the front of the value. */
  lemma {:induction false} ColonRangeKeys(k: string, w: string, r: string)
    requires IsBareKey(k) && IsBareKey(w)
    ensures QuoteKeys("{ " + k + ": '" + w + ":" + r) == "{ " + (Wrapped(k) + (" '" + (Wrapped(w) + QuoteKeys(r))))
  {
    var a, b := "{ ", " '";
    var v := w + ":" + r;
    calc {
      QuoteKeys("{ " + k + ": '" + w + ":" + r);
      { ColonRangeSplit(k, w, r); }
      QuoteKeys(a + (k + ":" + (b + v)));
      { QuoteKeysAppend(a, k + ":" + (b + v)); QuoteKeysIdentity(a); }
      a + QuoteKeys(k + ":" + (b + v));
      { QuoteKeysKey(k, b + v); }
      a + (Wrapped(k) + QuoteKeys(b + v));
      { QuoteKeysAppend(b, v); QuoteKeysIdentity(b); }
      a + (Wrapped(k) + (b + QuoteKeys(v)));
      { QuoteKeysKey(w, r); }
      a + (Wrapped(k) + (b + (Wrapped(w) + QuoteKeys(r))));
    }
  }

  lemma {:induction false} ColonRangeSplit(k: string, w: string, r: string)
    ensures "{ " + k + ": '" + w + ":" + r == "{ " + (k + ":" + (" '" + (w + ":" + r)))
  {
    assert ": '" == ":" + " '";
  }

  /** The quote swap then closes an empty value in front of the word. */
  lemma {:induction false} ColonRangeSwap(k: string, w: string, t: string)
    requires IsBareKey(k) && IsBareKey(w)
    ensures QuoteSwap("{ " + (Wrapped(k) + (" '" + (Wrapped(w) + t))))
      == ['{', ' '] + (MemberText((k, ""), true) + (w + ("\":" + QuoteSwap(t))))
  {
    var a, b := "{ ", " '";
    WordsPlain(k);
    WordsPlain(w);
    calc {
      QuoteSwap(a + (Wrapped(k) + (b + (Wrapped(w) + t))));
      { QuoteSwapAppend(a, Wrapped(k) + (b + (Wrapped(w) + t))); QuoteSwapIdentity(a); }
      a + QuoteSwap(Wrapped(k) + (b + (Wrapped(w) + t)));
      { QuoteSwapAppend(Wrapped(k), b + (Wrapped(w) + t)); QuoteSwapIdentity(Wrapped(k)); }
      a + (Wrapped(k) + QuoteSwap(b + (Wrapped(w) + t)));
      { QuoteSwapAppend(b, Wrapped(w) + t); SwapSpaceQuote(b); }
      a + (Wrapped(k) + (" \"" + QuoteSwap(Wrapped(w) + t)));
      { QuoteSwapAppend(Wrapped(w), t); QuoteSwapIdentity(Wrapped(w)); }
      a + (Wrapped(k) + (" \"" + (Wrapped(w) + QuoteSwap(t))));
      { EmptyValueText(k, w, QuoteSwap(t)); }
      ['{', ' '] + (MemberText((k, ""), true) + (w + ("\":" + QuoteSwap(t))));
    }
  }

  lemma {:induction false} SwapSpaceQuote(b: string)
    requires b == " '"
    ensures QuoteSwap(b) == " \""
  {
    assert b[1..] == "'" && "'"[1..] == [];
  }

  /** `"k": ""w":…` read as a member with an empty value, then the word. */
  lemma {:induction false} EmptyValueText(k: string, w: string, q: string)
    ensures "{ " + (Wrapped(k) + (" \"" + (Wrapped(w) + q)))
      == ['{', ' '] + (MemberText((k, ""), true) + (w + ("\":" + q)))
  {
    assert MemberText((k, ""), true) == Quoted(k, '"') + ": " + Quoted("", '"');
    assert Wrapped(k) + " \"" == Quoted(k, '"') + ": " + ['"'];
    assert Wrapped(w) + q == ['"'] + (w + ("\":" + q));
  }

  /** A word character is a plain JSON character and not a quote. */
  lemma {:induction false} WordsPlain(k: string)
    requires IsBareKey(k)
    ensures IsPlain(k) && '\'' !in k && '"' !in k
  {
    assert forall i :: 0 <= i < |k| ==> IsWordChar(k[i]) && k[i] != '\'' && k[i] != '"';
  }

  /** The alias range `npm:bar@^1.0.0`: `parseObjish` gives `null`. */
  lemma {:induction false} AliasRangeExample(k: string, w: string, r: string)
    requires k == "foo" && w == "npm" && r == "bar@^1.0.0' }"
    ensures ParseObjish("{ foo: 'npm:bar@^1.0.0' }") == None
  {
    assert IsIdentifier(k) && IsBareKey(w);
    ColonRangeNotObject(k, w, r);
    AliasJoin(k, w, r, "{ " + k + ": '" + w + ":" + r);
  }

  lemma {:induction false} AliasJoin(k: string, w: string, r: string, t: string)
    requires k == "foo" && w == "npm" && r == "bar@^1.0.0' }"
    requires t == "{ " + k + ": '" + w + ":" + r
    ensures t == "{ foo: 'npm:bar@^1.0.0' }"
  {
  }
}
