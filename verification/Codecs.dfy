/** The serializer (src/Serializer.h): how values are written as bytes and read back. */
module Codecs {
  import opened Native
  import opened Options

  /** The operators << and >> of a type, and which of its values fit their format. Decoding
      gives the value and the bytes left. */
  datatype Codec<!T> = Codec(ok: T -> bool, enc: T -> seq<byte>, dec: seq<byte> -> Option<(T, seq<byte>)>)

  /** Decoding an encoding, whatever follows it, gives back the value and what follows. */
  ghost predicate Valid<T(!new)>(c: Codec<T>) {
    forall v: T, rest: seq<byte> {:trigger c.dec(c.enc(v) + rest)} :: c.ok(v) ==>
      c.dec(c.enc(v) + rest) == Some((v, rest))
  }

  // --- Native types ---

  /** An unsigned integer of k bytes. */
  function Unsigned(k: nat): Codec<nat> {
    Codec(
      n => n < Pow256(k),
      n => Layout(n, k),
      s => if |s| < k then None else Some((Number(s[..k]), s[k..])))
  }

  lemma UnsignedValid(k: nat)
    ensures Valid(Unsigned(k))
  {
    forall n: nat, rest: seq<byte> | n < Pow256(k)
      ensures Unsigned(k).dec(Unsigned(k).enc(n) + rest) == Some((n, rest))
    {
      var s := Layout(n, k) + rest;
      assert s[..k] == Layout(n, k) && s[k..] == rest;
      NumberOfLayout(n, k);
    }
  }

  function FitsSigned(x: int, k: nat): bool {
    0 <= 2 * x + Pow256(k) && 2 * x < Pow256(k)
  }

  /** A signed integer of k bytes. */
  function Signed(k: nat): Codec<int> {
    Codec(
      x => FitsSigned(x, k),
      x => if FitsSigned(x, k) then SignedLayout(x, k) else [],
      s => if |s| < k then None else Some((SignedNumber(s[..k]), s[k..])))
  }

  lemma SignedValid(k: nat)
    ensures Valid(Signed(k))
  {
    forall x: int, rest: seq<byte> | FitsSigned(x, k)
      ensures Signed(k).dec(Signed(k).enc(x) + rest) == Some((x, rest))
    {
      var s := SignedLayout(x, k) + rest;
      assert s[..k] == SignedLayout(x, k) && s[k..] == rest;
      SignedNumberOfLayout(x, k);
    }
  }

  // --- Combinations ---

  function PairOf<A, B>(a: Codec<A>, b: Codec<B>): Codec<(A, B)> {
    Codec(
      (p: (A, B)) => a.ok(p.0) && b.ok(p.1),
      (p: (A, B)) => a.enc(p.0) + b.enc(p.1),
      s => match a.dec(s)
        case None => None
        case Some(x) => match b.dec(x.1)
          case None => None
          case Some(y) => Some(((x.0, y.0), y.1)))
  }

  lemma PairValid<A(!new), B(!new)>(a: Codec<A>, b: Codec<B>)
    requires Valid(a) && Valid(b)
    ensures Valid(PairOf(a, b))
  {
    var c := PairOf(a, b);
    forall p: (A, B), rest: seq<byte> | c.ok(p) ensures c.dec(c.enc(p) + rest) == Some((p, rest)) {
      assert c.enc(p) + rest == a.enc(p.0) + (b.enc(p.1) + rest);
    }
  }

  /** A type that is written as another one. */
  function Via<T, U>(c: Codec<U>, ok: T -> bool, to: T -> U, from: U -> T): Codec<T> {
    Codec(
      t => ok(t) && c.ok(to(t)),
      t => c.enc(to(t)),
      s => match c.dec(s) case None => None case Some(x) => Some((from(x.0), x.1)))
  }

  lemma ViaValid<T(!new), U(!new)>(c: Codec<U>, ok: T -> bool, to: T -> U, from: U -> T)
    requires Valid(c) && forall t: T {:trigger to(t)} :: ok(t) ==> from(to(t)) == t
    ensures Valid(Via(c, ok, to, from))
  {
    var d := Via(c, ok, to, from);
    forall t: T, rest: seq<byte> | d.ok(t) ensures d.dec(d.enc(t) + rest) == Some((t, rest)) {
      assert c.dec(c.enc(to(t)) + rest) == Some((to(t), rest));
    }
  }

  // --- Lists ---

  /** The elements from the i-th on, one after the other. */
  function EncodeFrom<T>(c: Codec<T>, xs: seq<T>, i: nat): seq<byte>
    requires i <= |xs|
    decreases |xs| - i
  {
    if i == |xs| then [] else c.enc(xs[i]) + EncodeFrom(c, xs, i + 1)
  }

  function DecodeMany<T>(c: Codec<T>, n: nat, s: seq<byte>): Option<(seq<T>, seq<byte>)> {
    if n == 0 then Some(([], s))
    else match c.dec(s)
      case None => None
      case Some(x) => match DecodeMany(c, n - 1, x.1)
        case None => None
        case Some(xs) => Some(([x.0] + xs.0, xs.1))
  }

  lemma {:induction false} DecodeManyOfEncoded<T(!new)>(c: Codec<T>, xs: seq<T>, i: nat, rest: seq<byte>)
    requires Valid(c) && i <= |xs| && forall x :: x in xs ==> c.ok(x)
    ensures DecodeMany(c, |xs| - i, EncodeFrom(c, xs, i) + rest) == Some((xs[i..], rest))
    decreases |xs| - i
  {
    if i == |xs| {
      assert [] + rest == rest && xs[i..] == [];
    } else {
      var tail := EncodeFrom(c, xs, i + 1);
      assert EncodeFrom(c, xs, i) + rest == c.enc(xs[i]) + (tail + rest);
      DecodeManyOfEncoded(c, xs, i + 1, rest);
      assert xs[i..] == [xs[i]] + xs[i + 1..];
    }
  }

  /** The size, and the elements one by one. */
  function ListOf<T(==)>(c: Codec<T>): Codec<seq<T>> {
    Codec(
      (xs: seq<T>) => |xs| < TWO_31 && forall x :: x in xs ==> c.ok(x),
      (xs: seq<T>) => if |xs| < TWO_31 then Bytes(|xs|) + EncodeFrom(c, xs, 0) else [],
      s =>
        if |s| < 4 || Value(s[..4]) < 0 then None
        else DecodeMany(c, Value(s[..4]), s[4..]))
  }

  lemma SplitAfter(a: seq<byte>, b: seq<byte>, rest: seq<byte>)
    ensures ((a + b) + rest)[..|a|] == a && ((a + b) + rest)[|a|..] == b + rest
  {
  }

  lemma ListDecodes<T(!new)>(c: Codec<T>, xs: seq<T>, rest: seq<byte>)
    requires Valid(c) && |xs| < TWO_31 && forall x :: x in xs ==> c.ok(x)
    ensures ListOf(c).dec((Bytes(|xs|) + EncodeFrom(c, xs, 0)) + rest) == Some((xs, rest))
  {
    SplitAfter(Bytes(|xs|), EncodeFrom(c, xs, 0), rest);
    ValueOfBytes(|xs|);
    DecodeManyOfEncoded(c, xs, 0, rest);
    assert xs[0..] == xs;
  }

  lemma ListValid<T(!new)>(c: Codec<T>)
    requires Valid(c)
    ensures Valid(ListOf(c))
  {
    var d := ListOf(c);
    forall xs: seq<T>, rest: seq<byte> | d.ok(xs) ensures d.dec(d.enc(xs) + rest) == Some((xs, rest)) {
      ListDecodes(c, xs, rest);
    }
  }

  /** A type with a fixed size: its values take k bytes, and any k bytes are a value. */
  ghost predicate FixedSize<T(!new)>(c: Codec<T>, k: nat, value: seq<byte> -> T) {
    && (forall x: T {:trigger c.enc(x)} :: c.ok(x) ==> |c.enc(x)| == k)
    && (forall s: seq<byte> {:trigger c.dec(s)} ::
          c.dec(s) == if |s| < k then None else Some((value(s[..k]), s[k..])))
  }

  /** Native integers are such types. */
  lemma UnsignedIsFixed(k: nat)
    ensures FixedSize(Unsigned(k), k, s => Number(s))
  {
  }

  lemma SignedIsFixed(k: nat)
    ensures FixedSize(Signed(k), k, s => SignedNumber(s))
  {
  }

  /** A list of native elements is written and read in one block. Its memory is this. */
  ghost predicate IsBlock<T>(c: Codec<T>, block: seq<byte>, xs: seq<T>, k: nat) {
    && |block| == |xs| * k
    && forall i :: 0 <= i < |xs| ==> i * k + k <= |block| && block[i * k..i * k + k] == c.enc(xs[i])
  }

  /** The block of a list is what writing its elements one by one gives. */
  lemma {:induction false} BlockIsElements<T(!new)>(c: Codec<T>, block: seq<byte>, xs: seq<T>, k: nat, i: nat)
    requires IsBlock(c, block, xs, k) && i <= |xs| && i * k <= |block|
    ensures block[i * k..] == EncodeFrom(c, xs, i)
    decreases |xs| - i
  {
    if i < |xs| {
      assert (i + 1) * k == i * k + k;
      BlockIsElements(c, block, xs, k, i + 1);
      assert block[i * k..] == block[i * k..i * k + k] + block[i * k + k..];
    }
  }

  /** Reading n elements of k bytes in one block. */
  function DecodeBlock<T>(value: seq<byte> -> T, k: nat, n: nat, s: seq<byte>): Option<(seq<T>, seq<byte>)>
  {
    if |s| < n * k then None else Some((Block(value, s, k, n), s[n * k..]))
  }

  function Block<T>(value: seq<byte> -> T, s: seq<byte>, k: nat, n: nat): (xs: seq<T>)
    requires n * k <= |s|
    ensures |xs| == n
  {
    seq(n, i requires 0 <= i < n => ElementAt(value, s, k, n, i))
  }

  function ElementAt<T>(value: seq<byte> -> T, s: seq<byte>, k: nat, n: nat, i: nat): T
    requires i < n && n * k <= |s|
  {
    InBlock(k, n, i);
    value(s[i * k..i * k + k])
  }

  lemma InBlock(k: nat, n: nat, i: nat)
    requires i < n
    ensures i * k + k <= n * k
  {
    assert (n - i - 1) * k >= 0;
    assert n * k == i * k + k + (n - i - 1) * k;
  }

  /** It reads the same, whatever the bytes are, as reading the elements one by one. */
  lemma {:induction false} BlockReadsElements<T(!new)>(c: Codec<T>, value: seq<byte> -> T, k: nat, n: nat,
                                                          s: seq<byte>)
    requires FixedSize(c, k, value)
    ensures DecodeBlock(value, k, n, s) == DecodeMany(c, n, s)
  {
    if n == 0 {
      assert s[0..] == s;
    } else {
      OneMore(k, n);
      if k <= |s| {
        BlockReadsElements(c, value, k, n - 1, s[k..]);
        if n * k <= |s| {
          BlockSplits(value, k, n, s);
        }
      }
    }
  }

  lemma OneMore(k: nat, n: nat)
    requires n > 0
    ensures n * k == k + (n - 1) * k && (n - 1) * k >= 0
  {
  }

  lemma SliceOfRest(s: seq<byte>, k: nat, a: nat, b: nat)
    requires k + a <= k + b <= |s|
    ensures s[k..][a..b] == s[k + a..k + b] && s[k..][b..] == s[k + b..]
  {
  }

  lemma NextElementAt<T>(value: seq<byte> -> T, s: seq<byte>, k: nat, n: nat, i: nat)
    requires 0 < i < n && k <= |s| && n * k <= |s| && (n - 1) * k <= |s[k..]|
    ensures ElementAt(value, s, k, n, i) == ElementAt(value, s[k..], k, n - 1, i - 1)
  {
    InBlock(k, n, i);
    InBlock(k, n - 1, i - 1);
    OneMore(k, i);
    SliceOfRest(s, k, (i - 1) * k, (i - 1) * k + k);
  }

  lemma BlockSplits<T>(value: seq<byte> -> T, k: nat, n: nat, s: seq<byte>)
    requires n > 0 && k <= |s| && n * k <= |s| && (n - 1) * k <= |s[k..]|
    ensures Block(value, s, k, n) == [value(s[..k])] + Block(value, s[k..], k, n - 1)
    ensures s[n * k..] == s[k..][(n - 1) * k..]
  {
    forall i | 0 < i < n ensures ElementAt(value, s, k, n, i) == ElementAt(value, s[k..], k, n - 1, i - 1) {
      NextElementAt(value, s, k, n, i);
    }
    OneMore(k, n);
    SliceOfRest(s, k, 0, (n - 1) * k);
    assert s[0 * k..0 * k + k] == s[..k];
  }

  /** A list of such elements: its block is what writing them one by one gives, and reads back. */
  lemma BlockRoundTrip<T(!new)>(c: Codec<T>, value: seq<byte> -> T, k: nat, block: seq<byte>, xs: seq<T>,
                                rest: seq<byte>)
    requires Valid(c) && FixedSize(c, k, value) && IsBlock(c, block, xs, k) && forall x :: x in xs ==> c.ok(x)
    ensures block == EncodeFrom(c, xs, 0)
    ensures DecodeBlock(value, k, |xs|, block + rest) == Some((xs, rest))
  {
    BlockIsElements(c, block, xs, k, 0);
    assert block[0 * k..] == block;
    BlockReadsElements(c, value, k, |xs|, block + rest);
    DecodeManyOfEncoded(c, xs, 0, rest);
    assert xs[0..] == xs;
  }

  /** So it is for lists of native integers, signed or not. */
  lemma NativeListRoundTrip(k: nat, ns: seq<nat>, xs: seq<int>, b: seq<byte>, d: seq<byte>, rest: seq<byte>)
    requires IsBlock(Unsigned(k), b, ns, k) && forall n :: n in ns ==> n < Pow256(k)
    requires IsBlock(Signed(k), d, xs, k) && forall x :: x in xs ==> FitsSigned(x, k)
    ensures DecodeBlock(s => Number(s), k, |ns|, b + rest) == Some((ns, rest))
    ensures DecodeBlock(s => SignedNumber(s), k, |xs|, d + rest) == Some((xs, rest))
    ensures ListOf(Unsigned(k)).enc(ns) == (if |ns| < TWO_31 then Bytes(|ns|) + b else [])
    ensures ListOf(Signed(k)).enc(xs) == (if |xs| < TWO_31 then Bytes(|xs|) + d else [])
  {
    UnsignedValid(k);
    UnsignedIsFixed(k);
    BlockRoundTrip(Unsigned(k), s => Number(s), k, b, ns, rest);
    SignedValid(k);
    SignedIsFixed(k);
    BlockRoundTrip(Signed(k), s => SignedNumber(s), k, d, xs, rest);
  }

  // --- Byte arrays, sets and maps ---

  /** A ByteArray or a Path: the size, and the chars. */
  function Text(): Codec<string> {
    Codec(
      (t: string) => |t| < TWO_31,
      (t: string) => if |t| < TWO_31 then Bytes(|t|) + t else [],
      s =>
        if |s| < 4 || Value(s[..4]) < 0 || |s| < 4 + Value(s[..4]) then None
        else Some((s[4..4 + Value(s[..4])], s[4 + Value(s[..4])..])))
  }

  lemma TextValid()
    ensures Valid(Text())
  {
    forall t: string, rest: seq<byte> | |t| < TWO_31 ensures Text().dec(Text().enc(t) + rest) == Some((t, rest)) {
      var s := (Bytes(|t|) + t) + rest;
      SplitAfter(Bytes(|t|), t, rest);
      ValueOfBytes(|t|);
      assert s[4..4 + |t|] == t && s[4 + |t|..] == rest;
    }
  }

  /** In which order a container hands out its keys. */
  ghost predicate Enumerates<T(!new)>(order: set<T> -> seq<T>) {
    forall s: set<T> {:trigger order(s)} :: |order(s)| == |s| && forall x :: x in order(s) <==> x in s
  }

  function Elements<T(==)>(xs: seq<T>): set<T> {
    set x | x in xs
  }

  function SetOf<T(==)>(c: Codec<T>, order: set<T> -> seq<T>): Codec<set<T>> {
    Via(ListOf(c), (s: set<T>) => true, (s: set<T>) => order(s), (xs: seq<T>) => Elements(xs))
  }

  lemma SetValid<T(!new)>(c: Codec<T>, order: set<T> -> seq<T>)
    requires Valid(c) && Enumerates(order)
    ensures Valid(SetOf(c, order))
  {
    ListValid(c);
    assert forall s: set<T> {:trigger order(s)} :: Elements(order(s)) == s;
    ViaValid(ListOf(c), (s: set<T>) => true, (s: set<T>) => order(s), (xs: seq<T>) => Elements(xs));
  }

  function Entries<K(==), V>(m: map<K, V>, keys: seq<K>): seq<(K, V)> {
    if keys == [] then []
    else (if keys[0] in m then [(keys[0], m[keys[0]])] else []) + Entries(m, keys[1..])
  }

  /** Inserting the entries one after the other. */
  function Inserted<K(==), V>(m: map<K, V>, entries: seq<(K, V)>): map<K, V>
    decreases |entries|
  {
    if entries == [] then m else Inserted(m[entries[0].0 := entries[0].1], entries[1..])
  }

  /** The entries of some keys. */
  function Among<K, V>(m: map<K, V>, keys: seq<K>): map<K, V> {
    map k | k in keys && k in m :: m[k]
  }

  lemma AmongNext<K, V>(m: map<K, V>, keys: seq<K>, into: map<K, V>)
    requires keys != []
    ensures keys[0] in m ==> into[keys[0] := m[keys[0]]] + Among(m, keys[1..]) == into + Among(m, keys)
    ensures keys[0] !in m ==> Among(m, keys[1..]) == Among(m, keys)
  {
    assert forall k :: k in keys <==> k == keys[0] || k in keys[1..];
  }

  lemma {:induction false} EntriesInserted<K, V>(m: map<K, V>, keys: seq<K>, into: map<K, V>)
    ensures Inserted(into, Entries(m, keys)) == into + Among(m, keys)
    decreases |keys|
  {
    if keys == [] {
      assert into + Among(m, keys) == into;
    } else {
      AmongNext(m, keys, into);
      var rest := Entries(m, keys[1..]);
      if keys[0] in m {
        assert Entries(m, keys)[1..] == rest;
        EntriesInserted(m, keys[1..], into[keys[0] := m[keys[0]]]);
      } else {
        assert Entries(m, keys) == rest;
        EntriesInserted(m, keys[1..], into);
      }
    }
  }

  function MapOf<K(==), V(==)>(k: Codec<K>, v: Codec<V>, order: set<K> -> seq<K>): Codec<map<K, V>> {
    Via(ListOf(PairOf(k, v)), (m: map<K, V>) => true, (m: map<K, V>) => Entries(m, order(m.Keys)),
        (es: seq<(K, V)>) => Inserted(map[], es))
  }

  lemma MapValid<K(!new), V(!new)>(k: Codec<K>, v: Codec<V>, order: set<K> -> seq<K>)
    requires Valid(k) && Valid(v) && Enumerates(order)
    ensures Valid(MapOf(k, v, order))
  {
    PairValid(k, v);
    ListValid(PairOf(k, v));
    var to := (m: map<K, V>) => Entries(m, order(m.Keys));
    var from := (es: seq<(K, V)>) => Inserted(map[], es);
    forall m: map<K, V> ensures from(to(m)) == m {
      EntriesInserted(m, order(m.Keys), map[]);
      assert forall x :: x in order(m.Keys) <==> x in m;
    }
    ViaValid(ListOf(PairOf(k, v)), (m: map<K, V>) => true, to, from);
  }

  // --- The objects that do the writing and reading ---

  /** Serializer: appends to what it has written. */
  class Serializer {
    var out: seq<byte>

    constructor ()
      ensures out == []
    {
      out := [];
    }

    method Write(data: seq<byte>)
      modifies this
      ensures out == old(out) + data
    {
      out := out + data;
    }

    method WriteList<T(==, !new)>(c: Codec<T>, xs: seq<T>)
      requires |xs| < TWO_31
      modifies this
      ensures out == old(out) + ListOf(c).enc(xs)
    {
      Write(Bytes(|xs|));
      ghost var all := EncodeFrom(c, xs, 0);
      for i := 0 to |xs|
        invariant out + EncodeFrom(c, xs, i) == old(out) + Bytes(|xs|) + all
      {
        Appended(out, c.enc(xs[i]), EncodeFrom(c, xs, i + 1));
        Write(c.enc(xs[i]));
      }
      Appended(old(out), Bytes(|xs|), all);
    }

    /** Writes the elements in the order in which they come. */
    method WriteSet<T(==, !new)>(c: Codec<T>, s: set<T>) returns (ghost order: seq<T>)
      requires |s| < TWO_31
      modifies this
      ensures Elements(order) == s && |order| == |s|
      ensures out == old(out) + ListOf(c).enc(order)
    {
      var todo, done := s, [];
      while todo != {}
        invariant todo <= s && Elements(done) == s - todo && |done| + |todo| == |s|
      {
        var x :| x in todo;
        todo := todo - {x};
        assert Elements(done + [x]) == Elements(done) + {x};
        done := done + [x];
      }
      order := done;
      WriteList(c, done);
    }
  }

  lemma Appended(a: seq<byte>, b: seq<byte>, c: seq<byte>)
    ensures a + (b + c) == (a + b) + c
  {
  }

  /** A list decoded after these elements. */
  function After<T>(xs: seq<T>, o: Option<(seq<T>, seq<byte>)>): Option<(seq<T>, seq<byte>)> {
    match o
    case None => None
    case Some(r) => Some((xs + r.0, r.1))
  }

  lemma AfterNone<T>(o: Option<(seq<T>, seq<byte>)>)
    ensures After([], o) == o
  {
    assert o.Some? ==> [] + o.value.0 == o.value.0;
  }

  lemma AfterAll<T>(c: Codec<T>, xs: seq<T>, s: seq<byte>)
    ensures After(xs, DecodeMany(c, 0, s)) == Some((xs, s))
  {
    assert xs + [] == xs;
  }

  lemma AfterOneMore<T>(c: Codec<T>, xs: seq<T>, n: nat, s: seq<byte>)
    requires n > 0 && c.dec(s).Some?
    ensures After(xs, DecodeMany(c, n, s)) == After(xs + [c.dec(s).value.0], DecodeMany(c, n - 1, c.dec(s).value.1))
  {
    var x := c.dec(s).value;
    var rest := DecodeMany(c, n - 1, x.1);
    if rest.Some? {
      assert xs + ([x.0] + rest.value.0) == (xs + [x.0]) + rest.value.0;
    }
  }

  lemma {:induction false} InsertedAppend<K, V>(m: map<K, V>, entries: seq<(K, V)>, e: (K, V))
    ensures Inserted(m, entries + [e]) == Inserted(m, entries)[e.0 := e.1]
    decreases |entries|
  {
    if entries == [] {
      assert (entries + [e])[1..] == [];
    } else {
      assert (entries + [e])[1..] == entries[1..] + [e] && (entries + [e])[0] == entries[0];
      InsertedAppend(m[entries[0].0 := entries[0].1], entries[1..], e);
    }
  }

  /** Deserializer: rest is what it has not read. A read that runs out of data, where the source
      asserts, gives None. */
  class Deserializer {
    var rest: seq<byte>

    constructor (data: seq<byte>)
      ensures rest == data
    {
      rest := data;
    }

    method ReadSize() returns (n: int)
      modifies this
      ensures n == if |old(rest)| < 4 then -1 else Value(old(rest)[..4])
      ensures rest == if |old(rest)| < 4 then old(rest) else old(rest)[4..]
    {
      if |rest| < 4 {
        return -1;
      }
      n := Value(rest[..4]);
      rest := rest[4..];
    }

    /** Inserts the next entries. */
    method ReadEntries<K(==, !new), V(==, !new)>(c: Codec<(K, V)>, size: nat) returns (r: Option<map<K, V>>)
      modifies this
      ensures match DecodeMany(c, size, old(rest))
        case None => r == None
        case Some(entries) => r == Some(Inserted(map[], entries.0)) && rest == entries.1
    {
      var m, i := map[], 0;
      ghost var start, entries := rest, [];
      AfterNone(DecodeMany(c, size, rest));
      while i < size
        invariant 0 <= i <= size && m == Inserted(map[], entries)
        invariant DecodeMany(c, size, start) == After(entries, DecodeMany(c, size - i, rest))
      {
        var entry := c.dec(rest);
        if entry == None {
          return None;
        }
        AfterOneMore(c, entries, size - i, rest);
        InsertedAppend(map[], entries, entry.value.0);
        entries := entries + [entry.value.0];
        m := m[entry.value.0.0 := entry.value.0.1];
        rest := entry.value.1;
        i := i + 1;
      }
      AfterAll(c, entries, rest);
      r := Some(m);
    }

    method ReadMap<K(==, !new), V(==, !new)>(k: Codec<K>, v: Codec<V>) returns (r: Option<map<K, V>>)
      modifies this
      ensures match ListOf(PairOf(k, v)).dec(old(rest))
        case None => r == None
        case Some(entries) => r == Some(Inserted(map[], entries.0)) && rest == entries.1
    {
      var size := ReadSize();
      if size < 0 {
        return None;
      }
      r := ReadEntries(PairOf(k, v), size);
    }

    method ReadList<T(==, !new)>(c: Codec<T>) returns (r: Option<seq<T>>)
      modifies this
      ensures match ListOf(c).dec(old(rest))
        case None => r == None
        case Some(xs) => r == Some(xs.0) && rest == xs.1
    {
      var size := ReadSize();
      if size < 0 {
        return None;
      }
      var xs, i := [], 0;
      ghost var start := rest;
      AfterNone(DecodeMany(c, size, rest));
      while i < size
        invariant 0 <= i <= size
        invariant DecodeMany(c, size, start) == After(xs, DecodeMany(c, size - i, rest))
      {
        var x := c.dec(rest);
        if x == None {
          return None;
        }
        AfterOneMore(c, xs, size - i, rest);
        xs := xs + [x.value.0];
        rest := x.value.1;
        i := i + 1;
      }
      AfterAll(c, xs, rest);
      r := Some(xs);
    }
  }
}
