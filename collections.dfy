/** The end-of-frame compaction of an entity collection: the
    erase(remove_if(...)) idiom that drops every dead entry and keeps the live
    ones in their original relative order. */
module Collections {

  /** The live entries of `s`, in order. */
  function Survivors<T>(s: seq<T>, alive: T -> bool): (r: seq<T>)
    ensures |r| <= |s|
    ensures forall x :: x in r ==> x in s && alive(x)
  {
    if s == [] then []
    else
      var rest := Survivors(s[..|s| - 1], alive);
      assert forall x :: x in rest ==> x in s;
      if alive(s[|s| - 1]) then rest + [s[|s| - 1]] else rest
  }

  /** Compaction distributes over concatenation: what survives of a prefix
      comes before what survives of the rest, so relative order is kept. */
  lemma {:induction false} SurvivorsAppend<T>(a: seq<T>, b: seq<T>, alive: T -> bool)
    ensures Survivors(a + b, alive) == Survivors(a, alive) + Survivors(b, alive)
    decreases |b|
  {
    if b == [] {
      assert a + b == a;
    } else {
      var c := b[..|b| - 1];
      assert (a + b)[..|a + b| - 1] == a + c;
      assert (a + b)[|a + b| - 1] == b[|b| - 1];
      SurvivorsAppend(a, c, alive);
    }
  }

  /** A single entry survives exactly when it is alive. */
  lemma SurvivorsSingle<T>(x: T, alive: T -> bool)
    ensures Survivors([x], alive) == if alive(x) then [x] else []
  {
    assert [x][..0] == [];
  }

  /** Nothing is dropped exactly when every entry is alive. */
  lemma {:induction false} SurvivorsAllAlive<T>(s: seq<T>, alive: T -> bool)
    ensures Survivors(s, alive) == s <==> forall i :: 0 <= i < |s| ==> alive(s[i])
  {
    if forall i :: 0 <= i < |s| ==> alive(s[i]) {
      if s != [] {
        var p := s[..|s| - 1];
        SurvivorsAllAlive(p, alive);
        assert s == p + [s[|s| - 1]];
      }
    } else {
      var i :| 0 <= i < |s| && !alive(s[i]);
      assert s[i] in s;
    }
  }

  /** Compaction keeps an entry exactly when it is live: every live entry of
      `s` survives and nothing else does. */
  lemma {:induction false} SurvivorsKeepLive<T>(s: seq<T>, alive: T -> bool)
    ensures forall x :: x in Survivors(s, alive) <==> x in s && alive(x)
  {
    if s != [] {
      var p := s[..|s| - 1];
      SurvivorsKeepLive(p, alive);
      assert s == p + [s[|s| - 1]];
      forall x | x in s && alive(x)
        ensures x in Survivors(s, alive)
      {
        if x != s[|s| - 1] {
          assert x in p;
        }
      }
    }
  }

  /** Compacting twice drops nothing more. */
  lemma SurvivorsIdempotent<T>(s: seq<T>, alive: T -> bool)
    ensures Survivors(Survivors(s, alive), alive) == Survivors(s, alive)
  {
    var r := Survivors(s, alive);
    assert forall i :: 0 <= i < |r| ==> r[i] in r;
    SurvivorsAllAlive(r, alive);
  }

  /** Killing one live entry leaves exactly one survivor fewer. */
  lemma SurvivorsKill<T>(s: seq<T>, i: nat, x: T, alive: T -> bool)
    requires i < |s| && alive(s[i]) && !alive(x)
    ensures |Survivors(s[i := x], alive)| + 1 == |Survivors(s, alive)|
  {
    var pre, post := s[..i], s[i + 1..];
    assert s == pre + [s[i]] + post;
    assert s[i := x] == pre + [x] + post;
    SurvivorsAppend(pre + [s[i]], post, alive);
    SurvivorsAppend(pre, [s[i]], alive);
    SurvivorsAppend(pre + [x], post, alive);
    SurvivorsAppend(pre, [x], alive);
    SurvivorsSingle(s[i], alive);
    SurvivorsSingle(x, alive);
  }

  /** Replacing entries without reviving any never adds survivors. */
  lemma {:induction false} SurvivorsMonotone<T>(s: seq<T>, t: seq<T>, alive: T -> bool)
    requires |s| == |t|
    requires forall i :: 0 <= i < |t| ==> alive(t[i]) ==> alive(s[i])
    ensures |Survivors(t, alive)| <= |Survivors(s, alive)|
  {
    if s != [] {
      SurvivorsMonotone(s[..|s| - 1], t[..|t| - 1], alive);
    }
  }

  /** The remove_if loop: copy each live entry forward, in order. */
  method Compact<T>(s: seq<T>, alive: T -> bool) returns (r: seq<T>)
    ensures r == Survivors(s, alive)
  {
    r := [];
    var i := 0;
    while i < |s|
      invariant 0 <= i <= |s|
      invariant r == Survivors(s[..i], alive)
    {
      assert s[..i + 1][..i] == s[..i];
      if alive(s[i]) {
        r := r + [s[i]];
      }
      i := i + 1;
    }
    assert s[..|s|] == s;
  }
}
