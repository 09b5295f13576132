// The shape test that every string passes before it is encoded.
module Utf8 {
  import opened Bytes
  import opened Bson
  import opened Lists

  // is_utf8: one pass, skipping the bytes of each sequence.
  method CheckUtf8(s: seq<Byte>) returns (ok: bool)
    ensures ok == IsUtf8(s)
  {
    var i := 0;
    assert s[0..] == s;
    while i < |s|
      invariant i <= |s| && IsUtf8(s) == IsUtf8(s[i..])
    {
      ghost var from, rest := i, s[i..];
      if i + 3 < |s| && 0xF0 <= s[i] < 0xF8 && Continuation(s[i + 1]) && Continuation(s[i + 2])
         && Continuation(s[i + 3]) {
        i := i + 3;
      } else if i + 2 < |s| && 0xE0 <= s[i] < 0xF0 && Continuation(s[i + 1]) && Continuation(s[i + 2]) {
        i := i + 2;
      } else if i + 1 < |s| && 0xC0 <= s[i] < 0xE0 && Continuation(s[i + 1]) {
        i := i + 1;
      } else if s[i] >= 0x80 {
        return false;
      }
      i := i + 1;
      Advance(rest, i - from, s[i..]);
    }
    ok := true;
  }

  lemma Advance(rest: seq<Byte>, width: nat, next: seq<Byte>)
    requires rest != [] && width == Utf8Width(rest) && width > 0 && next == rest[width..]
    ensures IsUtf8(rest) == IsUtf8(next)
  {
  }

  // One sequence of one to four bytes by its shape: a superset of section 4 of
  // RFC 3629, with overlong forms and surrogates.
  predicate WellShaped(p: seq<Byte>) {
    || (|p| == 1 && p[0] < 0x80)
    || (|p| == 2 && 0xC0 <= p[0] < 0xE0 && 0x80 <= p[1] < 0xC0)
    || (|p| == 3 && 0xE0 <= p[0] < 0xF0 && 0x80 <= p[1] < 0xC0 && 0x80 <= p[2] < 0xC0)
    || (|p| == 4 && 0xF0 <= p[0] < 0xF8 && forall i :: 1 <= i < 4 ==> 0x80 <= p[i] < 0xC0)
  }

  ghost predicate Splits(s: seq<Byte>, pieces: seq<seq<Byte>>) {
    Flatten(pieces) == s && forall i :: 0 <= i < |pieces| ==> WellShaped(pieces[i])
  }

  // The first byte of a well-shaped sequence gives its length away.
  lemma WidthOfPiece(p: seq<Byte>, rest: seq<Byte>)
    requires WellShaped(p)
    ensures Utf8Width(p + rest) == |p|
  {
    var s := p + rest;
    assert forall i :: 0 <= i < |p| ==> s[i] == p[i];
  }

  lemma {:induction false} SplitIsAccepted(s: seq<Byte>, pieces: seq<seq<Byte>>)
    requires Splits(s, pieces)
    ensures IsUtf8(s)
    decreases |pieces|
  {
    if pieces != [] {
      var rest := Flatten(pieces[1..]);
      FlattenCons(pieces[0], pieces[1..]);
      assert pieces == [pieces[0]] + pieces[1..];
      SplitIsAccepted(rest, pieces[1..]);
      WidthOfPiece(pieces[0], rest);
      assert s[|pieces[0]|..] == rest;
    }
  }

  lemma {:induction false} AcceptedSplits(s: seq<Byte>) returns (pieces: seq<seq<Byte>>)
    requires IsUtf8(s)
    ensures Splits(s, pieces)
    decreases |s|
  {
    if s == [] {
      pieces := [];
    } else {
      var w := Utf8Width(s);
      var rest := AcceptedSplits(s[w..]);
      pieces := [s[..w]] + rest;
      FlattenCons(s[..w], rest);
      assert WellShaped(s[..w]);
    }
  }

  // The test accepts exactly the strings that divide into well-shaped sequences.
  lemma IsUtf8Iff(s: seq<Byte>)
    ensures IsUtf8(s) <==> exists pieces :: Splits(s, pieces)
  {
    if IsUtf8(s) {
      var pieces := AcceptedSplits(s);
    }
    if pieces :| Splits(s, pieces) {
      SplitIsAccepted(s, pieces);
    }
  }
}
