/** How a path becomes the name of a file and back (encodePath and decodePath in src/RTags.h). */
module PathCodec {
  import opened Options

  const MARK := "<underscore>"

  /** The rest of the marker. */
  const WORD := "underscore>"

  predicate StartsWith(s: string, t: string) {
    |t| <= |s| && s[..|t|] == t
  }

  predicate Contains(s: string, t: string) {
    exists i :: 0 <= i <= |s| && StartsWith(s[i..], t)
  }

  function Prepend(s: string, o: Option<string>): Option<string> {
    match o case None => None case Some(t) => Some(s + t)
  }

  /** What encodePath makes of a path, or None where it fails. */
  function Encode(p: string): Option<string> {
    if p == "" then Some("")
    else if p[0] == '/' then Prepend("_", Encode(p[1..]))
    else if p[0] == '_' then Prepend(MARK, Encode(p[1..]))
    else if StartsWith(p, MARK) then None
    else Prepend([p[0]], Encode(p[1..]))
  }

  function Decode(s: string): string {
    if s == "" then ""
    else if s[0] == '_' then "/" + Decode(s[1..])
    else if StartsWith(s, MARK) then "_" + Decode(s[|MARK|..])
    else [s[0]] + Decode(s[1..])
  }

  // --- The loops, which rewrite the path in place ---

  lemma PrependTwice(s: string, t: string, o: Option<string>)
    ensures Prepend(s, Prepend(t, o)) == Prepend(s + t, o)
  {
    if o.Some? {
      assert s + (t + o.value) == (s + t) + o.value;
    }
  }

  lemma PrependNothing(o: Option<string>)
    ensures Prepend("", o) == o
  {
    if o.Some? {
      assert "" + o.value == o.value;
    }
  }

  /** encodePath: a moving index, and a path that grows behind it. */
  method EncodePath(path: string) returns (ok: bool, encoded: string)
    ensures ok == Encode(path).Some?
    ensures ok ==> encoded == Encode(path).value
  {
    encoded := path;
    var i := 0;
    assert path[0..] == path && path[..0] == "";
    PrependNothing(Encode(path));
    while i < |encoded|
      invariant 0 <= i <= |encoded|
      invariant Encode(path) == Prepend(encoded[..i], Encode(encoded[i..]))
      decreases |encoded| - i
    {
      ghost var done, rest := encoded[..i], encoded[i..];
      ghost var before := encoded;
      if encoded[i] == '/' {
        encoded := encoded[i := '_'];
        PrependTwice(done, "_", Encode(rest[1..]));
        assert encoded[..i + 1] == done + "_" && encoded[i + 1..] == rest[1..];
        i := i + 1;
      } else if encoded[i] == '_' {
        encoded := encoded[..i] + MARK + encoded[i + 1..];
        PrependTwice(done, MARK, Encode(rest[1..]));
        assert encoded[..i + |MARK|] == done + MARK && encoded[i + |MARK|..] == rest[1..];
        i := i + |MARK|;
      } else if encoded[i] == '<' && StartsWith(encoded[i..], MARK) {
        return false, encoded;
      } else {
        PrependTwice(done, [rest[0]], Encode(rest[1..]));
        assert encoded[..i + 1] == done + [rest[0]] && encoded[i + 1..] == rest[1..];
        i := i + 1;
      }
    }
    assert encoded[..i] == encoded && encoded[i..] == "" && encoded + "" == encoded;
    ok := true;
  }

  lemma DecodeStep(done: string, rest: string)
    requires rest != ""
    ensures done + Decode(rest) ==
            if rest[0] == '_' then (done + "/") + Decode(rest[1..])
            else if StartsWith(rest, MARK) then (done + "_") + Decode(rest[|MARK|..])
            else (done + [rest[0]]) + Decode(rest[1..])
  {
  }

  method DecodePath(path: string) returns (decoded: string)
    ensures decoded == Decode(path)
  {
    decoded := path;
    var i := 0;
    assert path[0..] == path && "" + Decode(path) == Decode(path);
    while i < |decoded|
      invariant 0 <= i <= |decoded|
      invariant Decode(path) == decoded[..i] + Decode(decoded[i..])
      decreases |decoded| - i
    {
      ghost var done, rest := decoded[..i], decoded[i..];
      DecodeStep(done, rest);
      if decoded[i] == '_' {
        decoded := decoded[i := '/'];
        assert decoded[..i + 1] == done + "/" && decoded[i + 1..] == rest[1..];
      } else if decoded[i] == '<' && StartsWith(decoded[i..], MARK) {
        decoded := decoded[..i] + "_" + decoded[i + |MARK|..];
        assert decoded[..i + 1] == done + "_" && decoded[i + 1..] == rest[|MARK|..];
      } else {
        assert decoded[..i + 1] == done + [rest[0]] && decoded[i + 1..] == rest[1..];
      }
      i := i + 1;
    }
    assert decoded[..i] == decoded && decoded[i..] == "" && decoded + "" == decoded;
  }

  // --- What they mean ---

  lemma ContainsStep(s: string, t: string)
    requires s != ""
    ensures Contains(s, t) <==> StartsWith(s, t) || Contains(s[1..], t)
  {
    assert s[0..] == s;
    if Contains(s, t) && !StartsWith(s, t) {
      var i :| 0 <= i <= |s| && StartsWith(s[i..], t);
      assert s[1..][i - 1..] == s[i..];
    }
    if Contains(s[1..], t) {
      var i :| 0 <= i <= |s[1..]| && StartsWith(s[1..][i..], t);
      assert s[1..][i..] == s[i + 1..];
    }
  }

  /** encodePath fails exactly on the paths that contain the marker, and no encoded path has a slash. */
  lemma {:induction false} EncodeFailsIff(p: string)
    ensures Encode(p) == None <==> Contains(p, MARK)
    ensures Encode(p).Some? ==> '/' !in Encode(p).value
  {
    if p != "" {
      ContainsStep(p, MARK);
      EncodeFailsIff(p[1..]);
    }
  }

  lemma ContainsMore(p: string, q: string, t: string)
    requires Contains(p, t)
    ensures Contains(p + q, t)
  {
    var i :| 0 <= i <= |p| && StartsWith(p[i..], t);
    assert (p + q)[i..][..|t|] == p[i..][..|t|];
  }

  /** One more character: a slash becomes an underscore, that becomes the marker, and everything
      else stays, unless it completes a marker. */
  lemma {:induction false} EncodeOneMore(p: string, c: char)
    requires !Contains(p + [c], MARK)
    ensures Encode(p).Some?
    ensures Encode(p + [c])
         == Some(Encode(p).value + if c == '/' then "_" else if c == '_' then "<underscore>" else [c])
  {
    EncodeFailsIff(p);
    if Contains(p, MARK) {
      ContainsMore(p, [c], MARK);
    }
    EncodeFailsIff(p + [c]);
    var image := if c == '/' then "_" else if c == '_' then "<underscore>" else [c];
    if p == "" {
      assert p + [c] == [c] && [c][1..] == "" && Encode("") == Some("");
      assert image + "" == image == "" + image && !StartsWith([c], MARK);
    } else {
      assert (p + [c])[1..] == p[1..] + [c];
      ContainsStep(p + [c], MARK);
      EncodeOneMore(p[1..], c);
      var first := if p[0] == '/' then "_" else if p[0] == '_' then MARK else [p[0]];
      assert (first + Encode(p[1..]).value) + image == first + (Encode(p[1..]).value + image);
    }
  }

  /** A path with no underscores, and no markers, has one for each slash. */
  lemma {:induction false} EncodeOfPlain(p: string)
    requires '_' !in p && '<' !in p
    ensures Encode(p).Some? && |Encode(p).value| == |p|
    ensures forall i :: 0 <= i < |p| ==> Encode(p).value[i] == if p[i] == '/' then '_' else p[i]
  {
    if p != "" {
      EncodeOfPlain(p[1..]);
    }
  }

  predicate IsPlain(w: string) {
    forall i :: 0 <= i < |w| ==> w[i] != '/' && w[i] != '_' && w[i] != '<'
  }

  /** A plain word at the beginning of an encoded path was there before. */
  lemma {:induction false} PlainWasThere(p: string, w: string)
    requires Encode(p).Some? && IsPlain(w) && StartsWith(Encode(p).value, w)
    ensures StartsWith(p, w)
  {
    if w != "" {
      var e := Encode(p).value;
      assert e[0] == w[0] && p != "" && p[0] == w[0];
      assert e == [p[0]] + Encode(p[1..]).value;
      assert Encode(p[1..]).value[..|w| - 1] == e[1..|w|] == w[1..];
      PlainWasThere(p[1..], w[1..]);
    }
  }

  /** A plain word at the beginning of a decoded name was there before. */
  lemma {:induction false} PlainWasInName(s: string, w: string)
    requires IsPlain(w) && StartsWith(Decode(s), w)
    ensures StartsWith(s, w)
  {
    if w != "" {
      var d := Decode(s);
      assert d[0] == w[0] && s != "" && s[0] == w[0];
      assert d == [s[0]] + Decode(s[1..]);
      assert Decode(s[1..])[..|w| - 1] == d[1..|w|] == w[1..];
      PlainWasInName(s[1..], w[1..]);
    }
  }

  /** Decoding undoes encoding. */
  lemma {:induction false} DecodeOfEncode(p: string)
    requires !Contains(p, MARK)
    ensures Encode(p).Some? && Decode(Encode(p).value) == p
  {
    EncodeFailsIff(p);
    if p != "" {
      ContainsStep(p, MARK);
      DecodeOfEncode(p[1..]);
      EncodeFailsIff(p[1..]);
      var e, rest := Encode(p).value, Encode(p[1..]).value;
      if p[0] == '/' {
        assert e == "_" + rest && e[1..] == rest;
      } else if p[0] == '_' {
        assert e == MARK + rest && e[|MARK|..] == rest;
      } else {
        assert e == [p[0]] + rest && e[1..] == rest;
        NoNewMark(p, e, rest);
      }
    }
  }

  lemma MarkSplits(s: string)
    requires s != ""
    ensures StartsWith(s, MARK) <==> s[0] == '<' && StartsWith(s[1..], WORD)
  {
    assert MARK == ['<'] + WORD;
    if |s| >= |MARK| {
      assert s[..|MARK|] == [s[0]] + s[1..][..|WORD|];
    }
  }

  /** Encoding does not make a marker out of what was none. */
  lemma NoNewMark(p: string, e: string, rest: string)
    requires p != "" && !StartsWith(p, MARK) && Encode(p[1..]) == Some(rest) && e == [p[0]] + rest
    ensures !StartsWith(e, MARK)
  {
    MarkSplits(p);
    MarkSplits(e);
    assert e[1..] == rest;
    if StartsWith(rest, WORD) {
      PlainWasThere(p[1..], WORD);
    }
  }

  /** Encoding undoes decoding, exactly for names without a slash. */
  lemma {:induction false} EncodeOfDecodeIff(s: string)
    ensures Encode(Decode(s)) == Some(s) <==> '/' !in s
  {
    if '/' in s {
      EncodeFailsIff(Decode(s));
    } else {
      EncodeOfDecode(s);
    }
  }

  lemma {:induction false} EncodeOfDecode(s: string)
    requires '/' !in s
    ensures Encode(Decode(s)) == Some(s)
  {
    if s != "" {
      var d := Decode(s);
      if s[0] == '_' {
        EncodeOfDecode(s[1..]);
        assert d[1..] == Decode(s[1..]) && s == "_" + s[1..];
      } else if StartsWith(s, MARK) {
        EncodeOfDecode(s[|MARK|..]);
        assert d[1..] == Decode(s[|MARK|..]);
        assert s == MARK + s[|MARK|..];
      } else {
        EncodeOfDecode(s[1..]);
        assert d == [s[0]] + Decode(s[1..]) && d[1..] == Decode(s[1..]);
        NoOldMark(s, d);
        assert s == [s[0]] + s[1..];
      }
    }
  }

  /** Nor does decoding. */
  lemma NoOldMark(s: string, d: string)
    requires s != "" && !StartsWith(s, MARK) && d == [s[0]] + Decode(s[1..])
    ensures !StartsWith(d, MARK)
  {
    MarkSplits(s);
    MarkSplits(d);
    assert d[1..] == Decode(s[1..]);
    if StartsWith(Decode(s[1..]), WORD) {
      PlainWasInName(s[1..], WORD);
    }
  }

  /** So the two are inverse bijections between the paths without the marker and the names
      without a slash. */
  lemma Bijection(p: string, s: string)
    requires !Contains(p, MARK) && '/' !in s
    ensures Encode(p) == Some(s) <==> Decode(s) == p
    ensures Encode(p).Some? && '/' !in Encode(p).value && !Contains(Decode(s), MARK)
  {
    DecodeOfEncode(p);
    EncodeOfDecode(s);
    EncodeFailsIff(p);
    EncodeFailsIff(Decode(s));
  }
}
