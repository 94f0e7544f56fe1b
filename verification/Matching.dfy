/** Finding the partner of a bracket (findMatching in src/GRParser.cpp). */
module Matching {

  /** The tokens the parser keeps; NoToken is what kind() answers outside the list. */
  datatype Kind =
    | LBrace | RBrace | LParen | RParen | Semi | Identifier | ColonColon | Colon
    | Tilde | Less | Comma | Greater | Equal | NoToken

  function KindAt(kinds: seq<Kind>, i: int): Kind {
    if 0 <= i < |kinds| then kinds[i] else NoToken
  }

  predicate Opens(k: Kind) {
    k == LParen || k == LBrace || k == Less
  }

  predicate Closes(k: Kind) {
    k == RParen || k == RBrace || k == Greater
  }

  /** The other bracket of a pair. */
  function Other(k: Kind): (o: Kind)
    ensures (Opens(k) ==> Closes(o)) && (Closes(k) ==> Opens(o))
  {
    match k
    case LParen => RParen
    case RParen => LParen
    case LBrace => RBrace
    case RBrace => LBrace
    case Less => Greater
    case Greater => Less
    case _ => NoToken
  }

  function Weight(k: Kind, open: Kind): int {
    if k == open then 1 else if k == Other(open) then -1 else 0
  }

  /** How many more brackets are opened than closed from a on, before b. */
  function Balance(kinds: seq<Kind>, open: Kind, a: nat, b: nat): int
    requires a <= b <= |kinds|
    decreases b - a
  {
    if a == b then 0 else Balance(kinds, open, a, b - 1) + Weight(kinds[b - 1], open)
  }

  lemma {:induction false} BalanceSplits(kinds: seq<Kind>, open: Kind, a: nat, m: nat, b: nat)
    requires a <= m <= b <= |kinds|
    ensures Balance(kinds, open, a, b) == Balance(kinds, open, a, m) + Balance(kinds, open, m, b)
    decreases b - m
  {
    if m < b {
      BalanceSplits(kinds, open, a, m, b - 1);
    }
  }

  lemma BalanceOfOne(kinds: seq<Kind>, open: Kind, i: nat)
    requires i < |kinds|
    ensures Balance(kinds, open, i, i + 1) == Weight(kinds[i], open)
  {
    assert Balance(kinds, open, i, i) == 0;
  }

  /** From a on, more brackets are opened than closed up to any place not beyond b. */
  ghost predicate StaysOpen(kinds: seq<Kind>, open: Kind, a: nat, b: nat)
    requires b <= |kinds|
  {
    forall k {:trigger Balance(kinds, open, a, k)} :: a < k <= b ==> Balance(kinds, open, a, k) > 0
  }

  /** Up to e, more brackets are closed than opened from any place after a. */
  ghost predicate StaysClosed(kinds: seq<Kind>, open: Kind, a: int, e: nat)
    requires -1 <= a && e <= |kinds|
  {
    forall k {:trigger Balance(kinds, open, k, e)} :: a < k < e ==> Balance(kinds, open, k, e) < 0
  }

  /** The brackets at i and j belong together: what is between them is balanced, and no bracket
      before j closes the one at i. */
  ghost predicate Partners(kinds: seq<Kind>, i: int, j: int) {
    && 0 <= i < j < |kinds| && Opens(kinds[i])
    && Balance(kinds, kinds[i], i, j + 1) == 0
    && StaysOpen(kinds, kinds[i], i, j)
  }

  /** Seen from the other end: no bracket after i opens the one at j. */
  lemma PartnersBackwards(kinds: seq<Kind>, open: Kind, i: nat, j: nat)
    requires i < j < |kinds| && Opens(open) && kinds[j] == Other(open)
    ensures Partners(kinds, i, j) && kinds[i] == open <==>
            Balance(kinds, open, i, j + 1) == 0 && StaysClosed(kinds, open, i, j + 1)
  {
    var e := j + 1;
    BalanceOfOne(kinds, open, i);
    BalanceSplits(kinds, open, i, i + 1, e);
    if Partners(kinds, i, j) && kinds[i] == open {
      forall k | i < k < e ensures Balance(kinds, open, k, e) < 0 {
        BalanceSplits(kinds, open, i, k, e);
      }
    }
    if Balance(kinds, open, i, e) == 0 && StaysClosed(kinds, open, i, e) {
      var rest := Balance(kinds, open, i + 1, e);
      forall k | i < k <= j ensures Balance(kinds, open, i, k) > 0 {
        BalanceSplits(kinds, open, i, k, e);
      }
    }
  }

  lemma PartnerIsBracket(kinds: seq<Kind>, i: int, j: int)
    ensures Partners(kinds, i, j) ==> kinds[j] == Other(kinds[i])
  {
    if 0 <= i < j < |kinds| && Opens(kinds[i]) {
      var before := Balance(kinds, kinds[i], i, j);
    }
  }

  lemma OnePartnerAfter(kinds: seq<Kind>, i: int, j: int, j': int)
    requires Partners(kinds, i, j) && Partners(kinds, i, j')
    ensures j == j'
  {
    var b, b' := Balance(kinds, kinds[i], i, j + 1), Balance(kinds, kinds[i], i, j' + 1);
    assert !(j < j') && !(j' < j);
  }

  lemma OnePartnerBefore(kinds: seq<Kind>, i: int, i': int, j: int)
    requires Partners(kinds, i, j) && Partners(kinds, i', j)
    ensures i == i'
  {
    PartnerIsBracket(kinds, i, j);
    PartnerIsBracket(kinds, i', j);
    PartnersBackwards(kinds, kinds[i], i, j);
    PartnersBackwards(kinds, kinds[i'], i', j);
    var b, b' := Balance(kinds, kinds[i], i, j + 1), Balance(kinds, kinds[i], i', j + 1);
    assert !(i < i') && !(i' < i);
  }

  predicate IsPair(open: Kind, close: Kind) {
    (open, close) == (LParen, RParen) || (open, close) == (LBrace, RBrace) || (open, close) == (Less, Greater)
  }

  /** findMatching: the partner of a bracket, or -1 if it has none. */
  method FindMatching(kinds: seq<Kind>, idx: nat) returns (r: int)
    requires idx < |kinds| && (Opens(kinds[idx]) || Closes(kinds[idx])) && NoToken !in kinds
    ensures Opens(kinds[idx]) ==> (r == -1 && forall j :: !Partners(kinds, idx, j)) || Partners(kinds, idx, r)
    ensures Closes(kinds[idx]) ==> (r == -1 && forall i :: !Partners(kinds, i, idx)) || Partners(kinds, r, idx)
    ensures r == -1 || IsPair(KindAt(kinds, idx), KindAt(kinds, r)) || IsPair(KindAt(kinds, r), KindAt(kinds, idx))
  {
    if Opens(kinds[idx]) {
      r := FindForwards(kinds, idx);
    } else {
      r := FindBackwards(kinds, idx);
    }
    PartnerIsBracket(kinds, idx, r);
    PartnerIsBracket(kinds, r, idx);
  }

  method FindForwards(kinds: seq<Kind>, idx: nat) returns (r: int)
    requires idx < |kinds| && Opens(kinds[idx]) && NoToken !in kinds
    ensures (r == -1 && forall j :: !Partners(kinds, idx, j)) || Partners(kinds, idx, r)
  {
    var open, close := kinds[idx], Other(kinds[idx]);
    var count, i := 1, idx + 1;
    while true
      invariant idx < i <= |kinds| && count == Balance(kinds, open, idx, i)
      invariant StaysOpen(kinds, open, idx, i)
      decreases |kinds| - i
    {
      var k := KindAt(kinds, i);
      if k == open {
        count := count + 1;
      } else if k == close {
        count := count - 1;
        if count == 0 {
          return i;
        }
      } else if k == NoToken {
        break;
      }
      i := i + 1;
    }
    forall j ensures !Partners(kinds, idx, j) {
      if idx < j < |kinds| {
        assert idx < j + 1 <= |kinds|;
      }
    }
    r := -1;
  }

  method FindBackwards(kinds: seq<Kind>, idx: nat) returns (r: int)
    requires idx < |kinds| && Closes(kinds[idx]) && NoToken !in kinds
    ensures (r == -1 && forall i :: !Partners(kinds, i, idx)) || Partners(kinds, r, idx)
  {
    var open, close := kinds[idx], Other(kinds[idx]);
    var count, i := 1, idx - 1;
    assert Balance(kinds, close, idx, idx + 1) == -1;
    while true
      invariant -1 <= i < idx && count == -Balance(kinds, close, i + 1, idx + 1)
      invariant StaysClosed(kinds, close, i, idx + 1)
      decreases i
    {
      var k := KindAt(kinds, i);
      if i >= 0 {
        BalanceSplits(kinds, close, i, i + 1, idx + 1);
        assert Balance(kinds, close, i, i + 1) == Weight(kinds[i], close);
      }
      if k == open {
        count := count + 1;
      } else if k == close {
        count := count - 1;
        if count == 0 {
          PartnersBackwards(kinds, close, i, idx);
          return i;
        }
      } else if k == NoToken {
        break;
      }
      i := i - 1;
    }
    r := -1;
    forall i ensures !Partners(kinds, i, idx) {
      PartnerIsBracket(kinds, i, idx);
      if 0 <= i < idx {
        PartnersBackwards(kinds, close, i, idx);
        assert Balance(kinds, close, i, idx + 1) < 0;
      }
    }
  }

  /** Looking for the partner of the partner leads back to the start. */
  method FindTwice(kinds: seq<Kind>, idx: nat) returns (partner: int, back: int)
    requires idx < |kinds| && (Opens(kinds[idx]) || Closes(kinds[idx])) && NoToken !in kinds
    ensures partner >= 0 ==> back == idx
  {
    partner := FindMatching(kinds, idx);
    back := -1;
    if partner >= 0 {
      if Opens(kinds[idx]) {
        PartnerIsBracket(kinds, idx, partner);
        back := FindMatching(kinds, partner);
        OnePartnerBefore(kinds, idx, back, partner);
      } else {
        back := FindMatching(kinds, partner);
        OnePartnerAfter(kinds, partner, idx, back);
      }
    }
  }
}
