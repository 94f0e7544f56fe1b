/** Source locations and their order (src/Location.h). */
module Locations {
  import opened Native

  /** File ids are handed out from 1 upwards; the order can handle 2^31 of them (OrderIsTotalIff). */
  type FileId = x: int | 0 <= x < TWO_31

  datatype Location = Location(fileId: FileId, offset: uint32)

  /** The 64-bit word a location is kept in: the offset in the high half, the file id in the low half. */
  function Pack(fileId: uint32, offset: uint32): int {
    offset * TWO_32 + fileId
  }

  lemma PackIsInjective(f: uint32, o: uint32, g: uint32, p: uint32)
    ensures 0 <= Pack(f, o) < TWO_32 * TWO_32
    ensures Pack(f, o) % TWO_32 == f && Pack(f, o) / TWO_32 == o
    ensures Pack(f, o) == Pack(g, p) <==> f == g && o == p
  {
  }

  /** An unsigned 32-bit difference read as a signed int: the one value in range that is
      congruent to it modulo 2^32. */
  function ToInt32(x: int): (r: int)
    requires -TWO_32 < x < TWO_32
    ensures -TWO_31 <= r < TWO_31
    ensures r == x || r == x - TWO_32 || r == x + TWO_32
  {
    if x >= TWO_31 then x - TWO_32 else if x < -TWO_31 then x + TWO_32 else x
  }

  /** operator< on any two file ids and offsets. */
  predicate Below(f: uint32, o: uint32, g: uint32, p: uint32) {
    var off := ToInt32(g - f);
    off < 0 || (off == 0 && o < p)
  }

  /** operator>. */
  predicate Above(f: uint32, o: uint32, g: uint32, p: uint32) {
    var off := ToInt32(g - f);
    off > 0 || (off == 0 && o > p)
  }

  /** Location::compare. */
  function Compare(f: uint32, o: uint32, g: uint32, p: uint32): int {
    var diff := ToInt32(g - f);
    if diff < 0 then -1
    else if diff > 0 then 1
    else
      var d := ToInt32(p - o);
      if d < 0 then -1 else if d > 0 then 1 else 0
  }

  ghost predicate StrictTotalOrderUpTo(n: nat) {
    && (forall f: uint32, o: uint32, g: uint32, p: uint32 | 1 <= f <= n && 1 <= g <= n ::
          && (Below(f, o, g, p) <==> !Below(g, p, f, o) && (f != g || o != p))
          && (Above(f, o, g, p) <==> Below(g, p, f, o)))
    && (forall f: uint32, o: uint32, g: uint32, p: uint32, h: uint32, q: uint32
          | 1 <= f <= n && 1 <= g <= n && 1 <= h <= n ::
          Below(f, o, g, p) && Below(g, p, h, q) ==> Below(f, o, h, q))
  }

  /** With n files registered the map order is a strict total order exactly when n is at most 2^31. */
  lemma OrderIsTotalIff(n: nat)
    ensures StrictTotalOrderUpTo(n) <==> n <= TWO_31
  {
    if n > TWO_31 {
      assert Below(1, 0, TWO_31 + 1, 0) && Below(TWO_31 + 1, 0, 1, 0);
      assert !StrictTotalOrderUpTo(n);
    }
  }

  /** The order on locations, with the file ids it can handle: later files first. */
  predicate Less(a: Location, b: Location)
    ensures Less(a, b) <==> a.fileId > b.fileId || (a.fileId == b.fileId && a.offset < b.offset)
  {
    Below(a.fileId, a.offset, b.fileId, b.offset)
  }

  /** compare() agrees with operator< on which locations are equal. On the sign it agrees
      exactly when the files differ, the offsets are equal, or the first offset is at least
      2^31 before or more than 2^31 after the second; its one caller only tests for 0. */
  lemma CompareVersusLess(a: Location, b: Location)
    ensures var c := Compare(a.fileId, a.offset, b.fileId, b.offset);
      && (c == 0 <==> a == b)
      && ((c < 0 <==> Less(a, b)) <==>
          (a.fileId != b.fileId || a.offset == b.offset
           || a.offset - b.offset > TWO_31 || b.offset - a.offset >= TWO_31))
  {
  }

  // --- Ordered sets of locations, as std::map keeps its keys ---

  ghost predicate IsMax(k: Location, s: set<Location>) {
    k in s && forall j :: j in s ==> j == k || Less(j, k)
  }

  lemma {:induction false} MaxExists(s: set<Location>)
    requires s != {}
    ensures exists k :: IsMax(k, s)
    decreases s
  {
    var x: Location :| x in s;
    var rest := s - {x};
    if rest == {} {
      assert s == {x};
      assert IsMax(x, s);
    } else {
      MaxExists(rest);
      var m: Location :| IsMax(m, rest);
      assert s == rest + {x};
      assert IsMax(if Less(m, x) then x else m, s);
    }
  }

  /** The last key of a nonempty ordered set. */
  function Last(s: set<Location>): (k: Location)
    requires s != {}
    ensures IsMax(k, s)
  {
    MaxExists(s);
    assert forall a, b :: IsMax(a, s) && IsMax(b, s) ==> a == b;
    var k: Location :| k in s && forall j :: j in s ==> j == k || Less(j, k);
    k
  }
}
