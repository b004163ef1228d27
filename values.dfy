/** Ruby values as the search library handles them, the error kinds it raises,
    and the few sequence and string operations its pipelines are built from
    (Array#uniq, Array#join, counting placeholders). */
module Values {

  /** A search attribute name (a Ruby Symbol, kept as its text). */
  type Name = string

  /** The Ruby values the library stores and passes around. The ignored
      sentinel (SearchApi::Search::IgnoredValue) is a variant of its own, so
      it can never be confused with nil, false, 0 or "". A Hash keeps its
      entries in insertion order. */
  datatype Value =
    | Nil
    | Bool(b: bool)
    | Int(i: int)
    | Str(s: string)
    | Sym(name: string)
    | List(items: seq<Value>)
    | Hash(entries: seq<(Value, Value)>)
    | Ignored

  datatype Option<T> = None | Some(value: T)

  /** The Ruby exception classes the library raises. */
  datatype ErrorKind =
    | ArgumentError
    | RuntimeError
    | NoMethodError
    | SearchApiError
    | NotImplementedError

  datatype Error = Error(kind: ErrorKind, message: string)

  datatype Result<T> = Ok(value: T) | Err(error: Error) {
    predicate IsFailure() { Err? }
    function PropagateFailure<U>(): Result<U> requires Err? { Err(error) }
    function Extract(): T requires Ok? { value }
  }

  datatype Outcome = Pass | Fail(error: Error)

  /** Ruby truthiness: only nil and false are falsy. */
  predicate Truthy(v: Value) {
    !(v.Nil? || v == Bool(false))
  }

  /** Characters matched by Ruby 1.8's \s: the vertical tab is not one. */
  predicate IsSpace(c: char) {
    c == ' ' || c == '\t' || c == '\n' || c == '\r' || c == '\U{000C}'
  }

  /** Characters removed by String#strip: the vertical tab and NUL besides
      the characters of \s. */
  predicate IsStripped(c: char) {
    IsSpace(c) || c == '\U{000B}' || c == '\0'
  }

  /** Rails' Object#blank?: nil, false, whitespace-only strings and empty
      collections are blank; numbers, symbols and other objects are not. */
  predicate Blank(v: Value) {
    match v
    case Nil => true
    case Bool(b) => !b
    case Str(s) => forall i :: 0 <= i < |s| ==> IsStripped(s[i])
    case List(items) => |items| == 0
    case Hash(entries) => |entries| == 0
    case _ => false
  }

  predicate IsBlankString(s: string) {
    Blank(Str(s))
  }

  /** Decimal rendering of a natural number. */
  function NatToString(n: nat): (r: string)
    ensures |r| > 0
    decreases n
  {
    var d := ['0', '1', '2', '3', '4', '5', '6', '7', '8', '9'][n % 10];
    if n < 10 then [d] else NatToString(n / 10) + [d]
  }

  function IntToString(i: int): string {
    if i < 0 then "-" + NatToString(-i) else NatToString(i)
  }

  /** Ruby 1.8's to_s: an Array renders as the concatenation of its elements,
      a Hash as the concatenation of its keys and values. */
  function ToS(v: Value): string {
    match v
    case Nil => ""
    case Bool(b) => if b then "true" else "false"
    case Int(i) => IntToString(i)
    case Str(s) => s
    case Sym(name) => name
    case List(items) => Concat(seq(|items|, k requires 0 <= k < |items| => ToS(items[k])))
    case Hash(es) => Concat(seq(|es|, k requires 0 <= k < |es| => ToS(es[k].0) + ToS(es[k].1)))
    case Ignored => "#<SearchApi::Search::IgnoredValue>"
  }

  function Concat(parts: seq<string>): string {
    if parts == [] then "" else parts[0] + Concat(parts[1..])
  }

  /** Ruby's Array(x): nil is [], an Array is itself, a Hash is its list of
      [key, value] pairs, anything else is wrapped. */
  function ToArray(v: Value): seq<Value> {
    match v
    case Nil => []
    case List(items) => items
    case Hash(es) => seq(|es|, k requires 0 <= k < |es| => List([es[k].0, es[k].1]))
    case _ => [v]
  }

  /** Hash#[] on a Hash value; nil for an absent key or a non-Hash. */
  function HashGet(h: Value, key: Value): Value
    decreases if h.Hash? then |h.entries| else 0
  {
    if !h.Hash? || h.entries == [] then Nil
    else if h.entries[0].0 == key then h.entries[0].1
    else HashGet(Hash(h.entries[1..]), key)
  }

  // ---------------------------------------------------------------------
  // Array#uniq

  /** Array#uniq: keeps the first occurrence of every element, in order. */
  function Dedup<T(==)>(s: seq<T>): seq<T>
    decreases |s|
  {
    if |s| == 0 then []
    else
      var r := Dedup(s[..|s| - 1]);
      if s[|s| - 1] in r then r else r + [s[|s| - 1]]
  }

  predicate Distinct<T(==)>(s: seq<T>) {
    forall i, j :: 0 <= i < j < |s| ==> s[i] != s[j]
  }

  lemma {:induction false} DedupElements<T>(s: seq<T>)
    ensures forall x :: x in Dedup(s) <==> x in s
    decreases |s|
  {
    if |s| > 0 {
      DedupElements(s[..|s| - 1]);
      assert s == s[..|s| - 1] + [s[|s| - 1]];
    }
  }

  lemma {:induction false} DedupDistinct<T>(s: seq<T>)
    ensures Distinct(Dedup(s))
    decreases |s|
  {
    if |s| > 0 {
      DedupDistinct(s[..|s| - 1]);
    }
  }

  /** uniq leaves a list without repeats as it is. */
  lemma {:induction false} DedupOfDistinct<T>(s: seq<T>)
    requires Distinct(s)
    ensures Dedup(s) == s
    decreases |s|
  {
    if |s| > 0 {
      var p := s[..|s| - 1];
      assert Distinct(p);
      DedupOfDistinct(p);
      assert s[|s| - 1] !in p by {
        forall j | 0 <= j < |p| ensures p[j] != s[|s| - 1] {
          assert s[j] == p[j];
        }
      }
      assert s == p + [s[|s| - 1]];
    }
  }

  lemma DedupIdempotent<T>(s: seq<T>)
    ensures Dedup(Dedup(s)) == Dedup(s)
  {
    DedupDistinct(s);
    DedupOfDistinct(Dedup(s));
  }

  /** Elements already present add nothing to uniq: uniq(s + t) == uniq(s)
      when every element of t occurs in s. */
  lemma {:induction false} DedupAbsorbs<T>(s: seq<T>, t: seq<T>)
    requires forall x :: x in t ==> x in s
    ensures Dedup(s + t) == Dedup(s)
    decreases |t|
  {
    if |t| == 0 {
      assert s + t == s;
    } else {
      var t' := t[..|t| - 1];
      DedupAbsorbs(s, t');
      assert (s + t)[..|s + t| - 1] == s + t';
      DedupElements(s);
    }
  }

  /** Array#| (set union, first-seen order): uniq of the concatenation. */
  function Union<T(==)>(a: seq<T>, b: seq<T>): seq<T> {
    Dedup(a + b)
  }

  /** Deduplicating a prefix first changes nothing: uniq(uniq(a) + b) == uniq(a + b). */
  lemma {:induction false} DedupPrefix<T>(a: seq<T>, b: seq<T>)
    ensures Dedup(Dedup(a) + b) == Dedup(a + b)
    decreases |b|
  {
    if |b| == 0 {
      assert Dedup(a) + b == Dedup(a);
      assert a + b == a;
      DedupIdempotent(a);
    } else {
      var b' := b[..|b| - 1];
      var x := b[|b| - 1];
      DedupPrefix(a, b');
      assert (Dedup(a) + b)[..|Dedup(a) + b| - 1] == Dedup(a) + b';
      assert (a + b)[..|a + b| - 1] == a + b';
      assert (Dedup(a) + b)[|Dedup(a) + b| - 1] == x;
      assert (a + b)[|a + b| - 1] == x;
    }
  }

  /** Folding Array#| over a list of arrays, starting from [], yields the
      uniq of their concatenation. */
  function UnionAll<T(==)>(parts: seq<seq<T>>): seq<T>
    decreases |parts|
  {
    if |parts| == 0 then [] else Union(UnionAll(parts[..|parts| - 1]), parts[|parts| - 1])
  }

  function Flatten<T>(parts: seq<seq<T>>): seq<T>
    decreases |parts|
  {
    if |parts| == 0 then [] else Flatten(parts[..|parts| - 1]) + parts[|parts| - 1]
  }

  lemma {:induction false} FlattenConcat<T>(p: seq<seq<T>>, q: seq<seq<T>>)
    ensures Flatten(p + q) == Flatten(p) + Flatten(q)
    decreases |q|
  {
    if |q| == 0 {
      assert p + q == p;
    } else {
      FlattenConcat(p, q[..|q| - 1]);
      assert (p + q)[..|p + q| - 1] == p + q[..|q| - 1];
    }
  }

  lemma {:induction false} UnionAllIsDedupFlatten<T>(parts: seq<seq<T>>)
    ensures UnionAll(parts) == Dedup(Flatten(parts))
    decreases |parts|
  {
    if |parts| > 0 {
      var p := parts[..|parts| - 1];
      UnionAllIsDedupFlatten(p);
      DedupPrefix(Flatten(p), parts[|parts| - 1]);
    }
  }

  // ---------------------------------------------------------------------
  // Array#join and counting

  /** Array#join(sep) on strings. */
  function Join(parts: seq<string>, sep: string): string
    decreases |parts|
  {
    if |parts| == 0 then ""
    else if |parts| == 1 then parts[0]
    else Join(parts[..|parts| - 1], sep) + sep + parts[|parts| - 1]
  }

  /** Number of occurrences of c in s. */
  function CountChar(c: char, s: string): nat
    decreases |s|
  {
    if |s| == 0 then 0 else CountChar(c, s[..|s| - 1]) + (if s[|s| - 1] == c then 1 else 0)
  }

  lemma {:induction false} CountCharConcat(c: char, s: string, t: string)
    ensures CountChar(c, s + t) == CountChar(c, s) + CountChar(c, t)
    decreases |t|
  {
    if |t| == 0 {
      assert s + t == s;
    } else {
      CountCharConcat(c, s, t[..|t| - 1]);
      assert (s + t)[..|s + t| - 1] == s + t[..|t| - 1];
    }
  }

  lemma {:induction false} CountCharAbsent(c: char, s: string)
    requires c !in s
    ensures CountChar(c, s) == 0
    decreases |s|
  {
    if |s| > 0 {
      assert s[..|s| - 1] + [s[|s| - 1]] == s;
      CountCharAbsent(c, s[..|s| - 1]);
    }
  }
}
