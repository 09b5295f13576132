// Lists: taking one element out, as unlinking its node does, counting, and putting
// pieces together.
module Lists {
  // The first c taken out.
  function RemoveFirst<T(==)>(s: seq<T>, c: T): seq<T> {
    if s == [] then [] else if s[0] == c then s[1..] else [s[0]] + RemoveFirst(s[1..], c)
  }

  lemma {:induction false} RemoveFirstAt<T>(s: seq<T>, k: nat)
    requires k < |s| && s[k] !in s[..k]
    ensures RemoveFirst(s, s[k]) == s[..k] + s[k + 1..]
  {
    if k > 0 {
      assert s[0] in s[..k];
      assert s[1..][..k - 1] == s[..k][1..];
      assert s[1..][k..] == s[k + 1..];
      RemoveFirstAt(s[1..], k - 1);
    }
  }

  lemma {:induction false} RemoveFirstNone<T>(s: seq<T>, c: T)
    requires c !in s
    ensures RemoveFirst(s, c) == s
  {
    if s != [] {
      RemoveFirstNone(s[1..], c);
    }
  }

  // No element stands in the list twice.
  ghost predicate Once<T>(s: seq<T>) {
    forall i, j :: 0 <= i < j < |s| ==> s[i] != s[j]
  }

  lemma OnceBefore<T>(s: seq<T>, k: nat)
    requires Once(s) && k < |s|
    ensures s[k] !in s[..k]
  {
  }

  lemma {:induction false} RemovedOnce<T>(s: seq<T>, c: T)
    requires Once(s)
    ensures Once(RemoveFirst(s, c))
    ensures forall x :: x in RemoveFirst(s, c) <==> x in s && x != c
  {
    if s != [] {
      assert s == [s[0]] + s[1..];
      RemovedOnce(s[1..], c);
      assert s[0] !in s[1..];
    }
  }

  // How often e stands in the list.
  function Count<T(==)>(s: seq<T>, e: T): nat {
    if s == [] then 0 else (if s[0] == e then 1 else 0) + Count(s[1..], e)
  }

  lemma {:induction false} CountConcat<T>(s: seq<T>, t: seq<T>, e: T)
    ensures Count(s + t, e) == Count(s, e) + Count(t, e)
  {
    if s == [] {
      assert s + t == t;
    } else {
      assert (s + t)[1..] == s[1..] + t;
      CountConcat(s[1..], t, e);
    }
  }

  lemma {:induction false} CountRemoved<T>(s: seq<T>, c: T, e: T)
    requires c in s
    ensures Count(RemoveFirst(s, c), e) == Count(s, e) - if c == e then 1 else 0
  {
    if s[0] != c {
      CountRemoved(s[1..], c, e);
      var rest := RemoveFirst(s[1..], c);
      assert ([s[0]] + rest)[1..] == rest;
    }
  }

  lemma {:induction false} CountIn<T>(s: seq<T>, e: T)
    ensures e in s <==> Count(s, e) > 0
  {
    if s != [] {
      CountIn(s[1..], e);
    }
  }

  // ----- Pieces -----

  function Flatten<T>(pieces: seq<seq<T>>): seq<T> {
    if pieces == [] then [] else Flatten(pieces[..|pieces| - 1]) + pieces[|pieces| - 1]
  }

  lemma {:induction false} FlattenCons<T>(piece: seq<T>, rest: seq<seq<T>>)
    ensures Flatten([piece] + rest) == piece + Flatten(rest)
    decreases |rest|
  {
    var all := [piece] + rest;
    if rest == [] {
      assert all[..0] == [];
      assert [] + piece == piece + [];
    } else {
      var init, last := rest[..|rest| - 1], rest[|rest| - 1];
      assert all[..|all| - 1] == [piece] + init;
      FlattenCons(piece, init);
      Assoc(piece, Flatten(init), last);
    }
  }

  lemma Assoc<T>(a: seq<T>, b: seq<T>, c: seq<T>)
    ensures (a + b) + c == a + (b + c)
  {
  }
}
