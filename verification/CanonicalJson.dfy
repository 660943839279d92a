/** The dedupe key `<tool>:<canonical JSON of the arguments>` and why it is exact.

    Arguments are JSON values (RFC 8259, sections 3 to 7) as Python holds them after parsing: integers
    and floats apart, objects as dictionaries.  The printer is
    `json.dumps(ensure_ascii=False, sort_keys=True, separators=(",", ":"))`. */
module CanonicalJson {
  /** A float is held by its `repr`. */
  datatype Json =
    | Null
    | Bool(b: bool)
    | Int(n: int)
    | Float(repr: string)
    | Str(s: string)
    | Arr(items: seq<Json>)
    | Obj(members: map<string, Json>)

  // ---- Scalars ----

  function Digit(d: nat): char
    requires d < 10
  {
    "0123456789"[d]
  }

  function Digits(n: nat): (s: string)
    ensures s != []
  {
    if n < 10 then [Digit(n)] else Digits(n / 10) + [Digit(n % 10)]
  }

  function PrintInt(n: int): string {
    if n < 0 then "-" + Digits(-n) else Digits(n)
  }

  /** The characters that a number, `NaN`, `Infinity`, `null`, `true` or `false` is made of. */
  predicate TokenChar(c: char) {
    'a' <= c <= 'z' || 'A' <= c <= 'Z' || '0' <= c <= '9' || c == '-' || c == '+' || c == '.'
  }

  predicate Token(s: string) {
    forall i :: 0 <= i < |s| ==> TokenChar(s[i])
  }

  /** What a float's `repr`, as `json` writes it, looks like: a token with a point, an exponent or
      one of the three special names, so never the text of an integer or of a literal. */
  predicate FloatRepr(s: string) {
    && s != [] && Token(s)
    && ('.' in s || ('e' in s && ('0' <= s[0] <= '9' || s[0] == '-')) || 'N' in s || 'I' in s)
  }

  // ---- Strings ----

  function Hex(d: nat): char
    requires d < 16
  {
    "0123456789abcdef"[d]
  }

  /** One character inside a string: quotes, backslashes and controls are escaped, nothing else. */
  function Escape(c: char): string {
    if c == '\"' then "\\\"" else
    if c == '\\' then "\\\\" else
    if c == '\n' then "\\n" else
    if c == '\r' then "\\r" else
    if c == '\t' then "\\t" else
    if c as int == 0x0C then "\\f" else
    if c as int == 0x08 then "\\b" else
    if c as int < 0x20 then "\\u00" + [Hex(c as int / 16), Hex(c as int % 16)] else [c]
  }

  function EscapeAll(s: string): string {
    if s == [] then [] else Escape(s[0]) + EscapeAll(s[1..])
  }

  function Quote(s: string): string {
    "\"" + EscapeAll(s) + "\""
  }

  // ---- Member order ----

  /** Python's order on strings: by code point, a prefix first. */
  predicate Before(a: string, b: string) {
    if b == [] then false
    else if a == [] then true
    else a[0] < b[0] || (a[0] == b[0] && Before(a[1..], b[1..]))
  }

  lemma BeforeIsTotal(a: string, b: string)
    ensures Before(a, b) || Before(b, a) || a == b
    ensures !(Before(a, b) && Before(b, a)) && !Before(a, a)
  {
    if a != [] && b != [] {
      BeforeIsTotal(a[1..], b[1..]);
      if a[0] == b[0] && a[1..] == b[1..] { assert a == [a[0]] + a[1..] == b; }
    }
  }

  lemma BeforeIsTransitive(a: string, b: string, c: string)
    requires Before(a, b) && Before(b, c)
    ensures Before(a, c)
  {
  }

  predicate Least(key: string, keys: set<string>) {
    key in keys && forall k :: k in keys && k != key ==> Before(key, k)
  }

  lemma LeastExists(keys: set<string>)
    requires keys != {}
    ensures exists key :: Least(key, keys)
  {
    var key :| key in keys;
    var rest := keys - {key};
    if rest == {} {
      assert forall k :: k in keys && k != key ==> k in rest;
      assert Least(key, keys);
    } else {
      LeastExists(rest);
      var other :| Least(other, rest);
      BeforeIsTotal(key, other);
      if Before(key, other) {
        forall k | k in keys && k != key ensures Before(key, k) {
          if k != other { BeforeIsTransitive(key, other, k); }
        }
        assert Least(key, keys);
      } else {
        assert Least(other, keys);
      }
    }
  }

  lemma LeastIsUnique(keys: set<string>)
    ensures forall j, k :: Least(j, keys) && Least(k, keys) ==> j == k
  {
    forall j, k | Least(j, keys) && Least(k, keys) ensures j == k {
      BeforeIsTotal(j, k);
    }
  }

  /** The keys of a dictionary as `sort_keys=True` lists them. */
  function Sorted(keys: set<string>): (list: seq<string>)
    ensures forall k :: k in list <==> k in keys
  {
    if keys == {} then []
    else
      LeastExists(keys);
      LeastIsUnique(keys);
      var key :| Least(key, keys);
      [key] + Sorted(keys - {key})
  }

  ghost predicate InOrder(list: seq<string>) {
    forall i, j :: 0 <= i < j < |list| ==> Before(list[i], list[j])
  }

  lemma {:induction false} SortedIsInOrder(keys: set<string>)
    ensures InOrder(Sorted(keys))
  {
    if keys != {} {
      var list := Sorted(keys);
      var key := list[0];
      assert list[1..] == Sorted(keys - {key});
      SortedIsInOrder(keys - {key});
      forall i, j | 0 <= i < j < |list| ensures Before(list[i], list[j]) {
        if i == 0 {
          assert list[j] == list[1..][j - 1] && list[1..][j - 1] in list[1..];
        } else {
          assert list[i] == list[1..][i - 1] && list[j] == list[1..][j - 1];
        }
      }
    }
  }

  // ---- Printing ----

  /** The members with these keys, in this order. */
  function PrintMembers(j: Json, keys: seq<string>): string
    requires j.Obj? && forall k :: k in keys ==> k in j.members
    decreases j, 0, |keys|
  {
    if keys == [] then ""
    else
      Quote(keys[0]) + ":" + Print(j.members[keys[0]])
      + (if |keys| == 1 then "" else "," + PrintMembers(j, keys[1..]))
  }

  function PrintItems(items: seq<Json>): string
    decreases items, 0
  {
    if items == [] then ""
    else Print(items[0]) + (if |items| == 1 then "" else "," + PrintItems(items[1..]))
  }

  function Print(j: Json): string
    decreases j, 1
  {
    match j
    case Null => "null"
    case Bool(b) => if b then "true" else "false"
    case Int(n) => PrintInt(n)
    case Float(repr) => repr
    case Str(s) => Quote(s)
    case Arr(items) => "[" + PrintItems(items) + "]"
    case Obj(members) => "{" + PrintMembers(j, Sorted(members.Keys)) + "}"
  }

  // ---- Values JSON can hold ----

  ghost predicate Valid(j: Json) {
    match j
    case Float(repr) => FloatRepr(repr)
    case Arr(items) => forall i :: 0 <= i < |items| ==> Valid(items[i])
    case Obj(members) => forall k :: k in members ==> Valid(members[k])
    case _ => true
  }

  // ---- Unique decoding: scalars ----

  predicate Scalar(j: Json) {
    j.Null? || j.Bool? || j.Int? || j.Float?
  }

  /** What may follow a value: nothing, or a character no token contains. */
  predicate Stops(rest: string) {
    rest == [] || !TokenChar(rest[0])
  }

  lemma {:induction false} DigitsAreDigits(n: nat)
    ensures forall i :: 0 <= i < |Digits(n)| ==> '0' <= Digits(n)[i] <= '9'
  {
    if n >= 10 { DigitsAreDigits(n / 10); }
  }

  lemma {:induction false} DigitsInjective(m: nat, n: nat)
    requires Digits(m) == Digits(n)
    ensures m == n
  {
    if m < 10 && n < 10 {
    } else if m < 10 || n < 10 {
    } else {
      var p, q := Digits(m / 10), Digits(n / 10);
      assert p == Digits(m)[..|Digits(m)| - 1] && q == Digits(n)[..|Digits(n)| - 1];
      DigitsInjective(m / 10, n / 10);
      assert Digit(m % 10) == Digits(m)[|Digits(m)| - 1] && Digit(n % 10) == Digits(n)[|Digits(n)| - 1];
    }
  }

  lemma PrintIntToken(n: int)
    ensures PrintInt(n) != [] && forall i :: 0 <= i < |PrintInt(n)| ==> '0' <= PrintInt(n)[i] <= '9' || PrintInt(n)[i] == '-'
    ensures PrintInt(n)[0] == '-' <==> n < 0
  {
    DigitsAreDigits(if n < 0 then -n else n);
  }

  lemma IntInjective(m: int, n: int)
    requires PrintInt(m) == PrintInt(n)
    ensures m == n
  {
    PrintIntToken(m);
    PrintIntToken(n);
    if m < 0 {
      assert Digits(-m) == PrintInt(m)[1..] == PrintInt(n)[1..] == Digits(-n);
      DigitsInjective(-m, -n);
    } else {
      DigitsInjective(m, n);
    }
  }

  lemma ScalarToken(j: Json)
    requires Scalar(j) && Valid(j)
    ensures Print(j) != [] && Token(Print(j))
  {
    if j.Int? { PrintIntToken(j.n); }
  }

  lemma ScalarInjective(a: Json, b: Json)
    requires Scalar(a) && Scalar(b) && Valid(a) && Valid(b) && Print(a) == Print(b)
    ensures a == b
  {
    var s := Print(a);
    if a.Int? { PrintIntToken(a.n); }
    if b.Int? { PrintIntToken(b.n); }
    if a.Int? && b.Int? { IntInjective(a.n, b.n); }
    assert a.Bool? || a.Null? ==> s[0] in "tfn" && 'N' !in s && 'I' !in s && '.' !in s;
    assert b.Bool? || b.Null? ==> s[0] in "tfn" && 'N' !in s && 'I' !in s && '.' !in s;
    assert a.Null? ==> 'e' !in s;
    assert b.Null? ==> 'e' !in s;
  }

  /** Two tokens followed by something that stops a token. */
  lemma {:induction false} TokenSplit(p: string, q: string, s: string, t: string)
    requires Token(p) && Token(q) && Stops(s) && Stops(t) && p + s == q + t
    ensures p == q && s == t
  {
    assert p == [] ==> p + s == s;
    assert q == [] ==> q + t == t;
    if p != [] && q != [] {
      assert (p + s)[0] == p[0] && (q + t)[0] == q[0];
      assert (p + s)[1..] == p[1..] + s && (q + t)[1..] == q[1..] + t;
      TokenSplit(p[1..], q[1..], s, t);
      assert p == [p[0]] + p[1..] && q == [q[0]] + q[1..];
    }
  }

  // ---- Unique decoding: strings ----

  lemma HexInjective(c: nat, d: nat)
    requires c < 16 && d < 16 && Hex(c) == Hex(d)
    ensures c == d
  {
  }

  /** No escape is a prefix of another. */
  lemma EscapeSplit(c: char, d: char, s: string, t: string)
    requires Escape(c) + s == Escape(d) + t
    ensures c == d && s == t
  {
    var text := Escape(c) + s;
    assert text[0] == Escape(c)[0] == Escape(d)[0];
    if |Escape(c)| > 1 {
      assert |Escape(d)| > 1;
      assert text[1] == Escape(c)[1] == Escape(d)[1];
      if |Escape(c)| == 6 {
        assert |Escape(d)| == 6;
        assert text[4] == Escape(c)[4] == Escape(d)[4];
        assert text[5] == Escape(c)[5] == Escape(d)[5];
        HexInjective(c as int / 16, d as int / 16);
        HexInjective(c as int % 16, d as int % 16);
      }
    }
    assert s == text[|Escape(c)|..] && t == text[|Escape(d)|..];
  }

  const QUOTE: char := '\"'

  /** A string from inside its quotes on, and what follows it. */
  function Inside(x: string, rest: string): string {
    EscapeAll(x) + [QUOTE] + rest
  }

  lemma InsideFirst(x: string, rest: string)
    ensures x == [] ==> Inside(x, rest) == [QUOTE] + rest
    ensures x != [] ==> Inside(x, rest) == Escape(x[0]) + Inside(x[1..], rest) && Inside(x, rest)[0] != QUOTE
  {
  }

  lemma {:induction false} StringSplit(x: string, y: string, s: string, t: string)
    requires Inside(x, s) == Inside(y, t)
    ensures x == y && s == t
    decreases |x|
  {
    InsideFirst(x, s);
    InsideFirst(y, t);
    if x == [] {
      assert s == Inside(x, s)[1..];
      assert t == Inside(y, t)[1..];
    } else {
      EscapeSplit(x[0], y[0], Inside(x[1..], s), Inside(y[1..], t));
      StringSplit(x[1..], y[1..], s, t);
      assert x == [x[0]] + x[1..] && y == [y[0]] + y[1..];
    }
  }

  // ---- Unique decoding: values ----

  /** The first character tells what kind of value follows; none is a closing bracket. */
  lemma FirstChar(j: Json)
    requires Valid(j)
    ensures Print(j) != []
    ensures j.Str? <==> Print(j)[0] == QUOTE
    ensures j.Arr? <==> Print(j)[0] == '['
    ensures j.Obj? <==> Print(j)[0] == '{'
    ensures Scalar(j) <==> TokenChar(Print(j)[0])
  {
    if Scalar(j) { ScalarToken(j); }
  }

  /** An array from inside its brackets on, and what follows it. */
  ghost function Items(items: seq<Json>, rest: string): string {
    PrintItems(items) + "]" + rest
  }

  ghost function AfterItem(items: seq<Json>, rest: string): string
    requires items != []
  {
    if |items| == 1 then "]" + rest else "," + Items(items[1..], rest)
  }

  lemma ItemsFirst(items: seq<Json>, rest: string)
    requires items != []
    ensures Items(items, rest) == Print(items[0]) + AfterItem(items, rest)
    ensures Stops(AfterItem(items, rest))
  {
    var first := Print(items[0]);
    if |items| == 1 {
      assert PrintItems(items) == first;
    } else {
      var more := PrintItems(items[1..]);
      assert PrintItems(items) == first + ("," + more);
      assert first + ("," + more) + "]" + rest == first + ("," + (more + "]" + rest));
    }
  }

  /** An object from inside its braces on, and what follows it. */
  ghost function Members(j: Json, keys: seq<string>, rest: string): string
    requires j.Obj? && forall k :: k in keys ==> k in j.members
  {
    PrintMembers(j, keys) + "}" + rest
  }

  ghost function AfterMember(j: Json, keys: seq<string>, rest: string): string
    requires keys != [] && j.Obj? && forall k :: k in keys ==> k in j.members
  {
    if |keys| == 1 then "}" + rest else "," + Members(j, keys[1..], rest)
  }

  lemma RegroupMember(name: string, value: string, after: string)
    ensures [QUOTE] + name + [QUOTE] + ":" + value + after == [QUOTE] + (name + [QUOTE] + (":" + (value + after)))
  {
  }

  lemma MemberThenAfter(j: Json, keys: seq<string>, rest: string)
    requires keys != [] && j.Obj? && forall k :: k in keys ==> k in j.members
    ensures Members(j, keys, rest)
            == Quote(keys[0]) + ":" + Print(j.members[keys[0]]) + AfterMember(j, keys, rest)
  {
    var first := Quote(keys[0]) + ":" + Print(j.members[keys[0]]);
    if |keys| == 1 {
      assert PrintMembers(j, keys) == first;
    } else {
      var more := PrintMembers(j, keys[1..]);
      assert PrintMembers(j, keys) == first + ("," + more);
      assert first + ("," + more) + "}" + rest == first + ("," + (more + "}" + rest));
    }
  }

  lemma MembersFirst(j: Json, keys: seq<string>, rest: string)
    requires keys != [] && j.Obj? && forall k :: k in keys ==> k in j.members
    ensures Members(j, keys, rest)
            == [QUOTE] + Inside(keys[0], ":" + (Print(j.members[keys[0]]) + AfterMember(j, keys, rest)))
    ensures Stops(AfterMember(j, keys, rest))
  {
    MemberThenAfter(j, keys, rest);
    RegroupMember(EscapeAll(keys[0]), Print(j.members[keys[0]]), AfterMember(j, keys, rest));
  }

  lemma ItemsStart(xs: seq<Json>, s: string)
    requires xs != [] ==> Valid(xs[0])
    ensures Items(xs, s) != [] && (Items(xs, s)[0] == ']' <==> xs == [])
    ensures xs == [] ==> Items(xs, s)[1..] == s
  {
    if xs != [] {
      FirstChar(xs[0]);
      ItemsFirst(xs, s);
    }
  }

  lemma AfterItemStart(xs: seq<Json>, s: string)
    requires xs != []
    ensures AfterItem(xs, s) != [] && AfterItem(xs, s)[0] == if |xs| == 1 then ']' else ','
    ensures AfterItem(xs, s)[1..] == if |xs| == 1 then s else Items(xs[1..], s)
  {
  }

  lemma {:induction false} DecodeItems(xs: seq<Json>, ys: seq<Json>, s: string, t: string)
    requires Items(xs, s) == Items(ys, t)
    requires forall i :: 0 <= i < |xs| ==> Valid(xs[i])
    requires forall i :: 0 <= i < |ys| ==> Valid(ys[i])
    ensures xs == ys && s == t
    decreases xs, 0, 0
  {
    ItemsStart(xs, s);
    ItemsStart(ys, t);
    if xs != [] {
      ItemsFirst(xs, s);
      ItemsFirst(ys, t);
      Decode(xs[0], ys[0], AfterItem(xs, s), AfterItem(ys, t));
      AfterItemStart(xs, s);
      AfterItemStart(ys, t);
      assert xs == [xs[0]] + xs[1..] && ys == [ys[0]] + ys[1..];
      if |xs| > 1 { DecodeItems(xs[1..], ys[1..], s, t); }
    }
  }

  lemma {:induction false} DecodeMembers(a: Json, b: Json, ks: seq<string>, ls: seq<string>, s: string, t: string)
    requires a.Obj? && b.Obj? && Valid(a) && Valid(b)
    requires (forall k :: k in ks ==> k in a.members) && (forall k :: k in ls ==> k in b.members)
    requires Members(a, ks, s) == Members(b, ls, t)
    ensures ks == ls && s == t
    ensures forall k :: k in ks ==> k in b.members && a.members[k] == b.members[k]
    decreases a, 0, 2 * |ks|
  {
    if ks != [] { MembersFirst(a, ks, s); }
    if ls != [] { MembersFirst(b, ls, t); }
    assert ks == [] ==> Members(a, ks, s)[0] == '}' && Members(a, ks, s)[1..] == s;
    assert ls == [] ==> Members(b, ls, t)[0] == '}' && Members(b, ls, t)[1..] == t;
    if ks != [] {
      var v, w := a.members[ks[0]], b.members[ls[0]];
      var afterA, afterB := AfterMember(a, ks, s), AfterMember(b, ls, t);
      assert Inside(ks[0], ":" + (Print(v) + afterA)) == Members(a, ks, s)[1..];
      assert Inside(ls[0], ":" + (Print(w) + afterB)) == Members(b, ls, t)[1..];
      StringSplit(ks[0], ls[0], ":" + (Print(v) + afterA), ":" + (Print(w) + afterB));
      assert (":" + (Print(v) + afterA))[1..] == Print(v) + afterA;
      assert (":" + (Print(w) + afterB))[1..] == Print(w) + afterB;
      Decode(v, w, afterA, afterB);
      DecodeLaterMembers(a, b, ks, ls, s, t);
    }
  }

  lemma {:induction false} DecodeLaterMembers(a: Json, b: Json, ks: seq<string>, ls: seq<string>, s: string, t: string)
    requires a.Obj? && b.Obj? && Valid(a) && Valid(b)
    requires (forall k :: k in ks ==> k in a.members) && (forall k :: k in ls ==> k in b.members)
    requires ks != [] && ls != [] && ks[0] == ls[0] && a.members[ks[0]] == b.members[ls[0]]
    requires AfterMember(a, ks, s) == AfterMember(b, ls, t)
    ensures ks == ls && s == t
    ensures forall k :: k in ks ==> k in b.members && a.members[k] == b.members[k]
    decreases a, 0, 2 * |ks| - 1
  {
    var afterA, afterB := AfterMember(a, ks, s), AfterMember(b, ls, t);
    assert afterA[0] == if |ks| == 1 then '}' else ',';
    assert afterB[0] == if |ls| == 1 then '}' else ',';
    assert ks == [ks[0]] + ks[1..] && ls == [ls[0]] + ls[1..];
    if |ks| == 1 {
      assert s == afterA[1..] && t == afterB[1..];
    } else {
      assert Members(a, ks[1..], s) == afterA[1..] && Members(b, ls[1..], t) == afterB[1..];
      DecodeMembers(a, b, ks[1..], ls[1..], s, t);
    }
  }

  /** A value that is no scalar, from behind its first character on. */
  ghost function Opened(j: Json, rest: string): string
    requires !Scalar(j)
  {
    match j
    case Str(x) => Inside(x, rest)
    case Arr(items) => Items(items, rest)
    case Obj(members) => Members(j, Sorted(members.Keys), rest)
  }

  lemma OpenedIsTail(j: Json, rest: string)
    requires !Scalar(j)
    ensures (Print(j) + rest)[1..] == Opened(j, rest)
  {
    match j
    case Str(x) => assert Print(j) + rest == [QUOTE] + Inside(x, rest);
    case Arr(items) => assert Print(j) + rest == "[" + Items(items, rest);
    case Obj(members) => assert Print(j) + rest == "{" + Members(j, Sorted(members.Keys), rest);
  }

  lemma SameKind(a: Json, b: Json, s: string, t: string)
    requires Valid(a) && Valid(b) && Print(a) + s == Print(b) + t
    ensures Scalar(a) <==> Scalar(b)
    ensures (a.Str? <==> b.Str?) && (a.Arr? <==> b.Arr?) && (a.Obj? <==> b.Obj?)
  {
    FirstChar(a);
    FirstChar(b);
    assert (Print(a) + s)[0] == Print(a)[0];
    assert (Print(b) + t)[0] == Print(b)[0];
  }

  /** The printed form of a value followed by a stop determines the value and what follows. */
  lemma {:induction false} Decode(a: Json, b: Json, s: string, t: string)
    requires Valid(a) && Valid(b) && Stops(s) && Stops(t)
    requires Print(a) + s == Print(b) + t
    ensures a == b && s == t
    decreases a, 1, 0
  {
    SameKind(a, b, s, t);
    if Scalar(a) {
      ScalarToken(a);
      ScalarToken(b);
      TokenSplit(Print(a), Print(b), s, t);
      ScalarInjective(a, b);
    } else {
      OpenedIsTail(a, s);
      OpenedIsTail(b, t);
      match a
      case Str(x) => StringSplit(x, b.s, s, t);
      case Arr(items) => DecodeItems(items, b.items, s, t);
      case Obj(members) =>
        DecodeMembers(a, b, Sorted(members.Keys), Sorted(b.members.Keys), s, t);
        assert members == b.members;
    }
  }

  /** The printer is injective: equal texts come from equal values, member order aside. */
  lemma PrintIsInjective(a: Json, b: Json)
    requires Valid(a) && Valid(b)
    ensures Print(a) == Print(b) <==> a == b
  {
    if Print(a) == Print(b) {
      Decode(a, b, [], []);
    }
  }

  // ---- Dictionaries and their insertion order ----

  /** A dictionary filled by these assignments, in this order. */
  function FromPairs(pairs: seq<(string, Json)>): map<string, Json> {
    if pairs == [] then map[]
    else FromPairs(pairs[..|pairs| - 1])[pairs[|pairs| - 1].0 := pairs[|pairs| - 1].1]
  }

  ghost predicate DistinctNames(pairs: seq<(string, Json)>) {
    forall i, j :: 0 <= i < j < |pairs| ==> pairs[i].0 != pairs[j].0
  }

  lemma {:induction false} FromPairsHolds(pairs: seq<(string, Json)>, name: string, value: Json)
    requires DistinctNames(pairs)
    ensures (name in FromPairs(pairs) && FromPairs(pairs)[name] == value) <==> (name, value) in pairs
    ensures name in FromPairs(pairs) <==> exists i :: 0 <= i < |pairs| && pairs[i].0 == name
    decreases |pairs|
  {
    if pairs != [] {
      var n := |pairs| - 1;
      FromPairsHolds(pairs[..n], name, value);
      assert pairs == pairs[..n] + [pairs[n]];
    }
  }

  /** Two orders of the same members print alike. */
  lemma MemberOrderIsInvisible(pairs: seq<(string, Json)>, others: seq<(string, Json)>)
    requires DistinctNames(pairs) && DistinctNames(others) && multiset(pairs) == multiset(others)
    ensures Print(Obj(FromPairs(pairs))) == Print(Obj(FromPairs(others)))
  {
    var m, n := FromPairs(pairs), FromPairs(others);
    forall pair ensures pair in pairs <==> pair in others {
      assert pair in multiset(pairs) <==> pair in multiset(others);
    }
    forall k | k in m ensures k in n && n[k] == m[k] {
      FromPairsHolds(pairs, k, m[k]);
      FromPairsHolds(others, k, m[k]);
    }
    forall k | k in n ensures k in m {
      FromPairsHolds(others, k, n[k]);
      FromPairsHolds(pairs, k, n[k]);
    }
    assert m == n;
  }

  // ---- Policies and the dedupe key ----

  datatype Policy = Policy(sameTurnDedupe: bool, allowTransportRetry: bool)

  const SIDE_EFFECT_TOOLS: set<string> :=
    {"generate_otp", "validate_otp", "select_loan", "download_welcome_letter", "download_soa", "logout"}

  function GetPolicy(tool: string): Policy {
    if tool in SIDE_EFFECT_TOOLS then Policy(true, false) else Policy(false, true)
  }

  function DedupeKey(tool: string, args: Json): string {
    tool + ":" + Print(args)
  }

  lemma ListedNamesHaveNoColon(tool: string)
    requires tool in SIDE_EFFECT_TOOLS
    ensures ':' !in tool
  {
  }

  lemma {:induction false} ColonSplit(p: string, q: string, s: string, t: string)
    requires ':' !in p && ':' !in q && p + ":" + s == q + ":" + t
    ensures p == q && s == t
  {
    var text := p + ":" + s;
    assert text[0] == if p == [] then ':' else p[0];
    assert text[0] == if q == [] then ':' else q[0];
    assert text[1..] == if p == [] then s else p[1..] + ":" + s;
    assert text[1..] == if q == [] then t else q[1..] + ":" + t;
    if p != [] {
      ColonSplit(p[1..], q[1..], s, t);
      assert p == [p[0]] + p[1..] && q == [q[0]] + q[1..];
    }
  }

  /** The key is exact: two calls of policy-listed tools share it if and only if they name the same tool
      with arguments that are equal as JSON values, member order aside. */
  lemma DedupeKeyIsExact(tool1: string, args1: Json, tool2: string, args2: Json)
    requires tool1 in SIDE_EFFECT_TOOLS && tool2 in SIDE_EFFECT_TOOLS && Valid(args1) && Valid(args2)
    ensures DedupeKey(tool1, args1) == DedupeKey(tool2, args2) <==> tool1 == tool2 && args1 == args2
  {
    if DedupeKey(tool1, args1) == DedupeKey(tool2, args2) {
      ListedNamesHaveNoColon(tool1);
      ListedNamesHaveNoColon(tool2);
      ColonSplit(tool1, tool2, Print(args1), Print(args2));
      PrintIsInjective(args1, args2);
    }
  }
}
