/** The size guard of retro_serialize / retro_unserialize: the engine's
    state size is cached in serialize_size the first time it is non-zero,
    and a host buffer of any other size is refused. */
module StateGuard {

  /** serialize_size after one guarded call; `engineSize` is what
      gb.stateSize() answers if it is asked. */
  function CachedSize(cached: nat, engineSize: nat): (r: nat)
    ensures cached != 0 ==> r == cached
    ensures cached == 0 ==> r == engineSize
  {
    if cached == 0 then engineSize else cached
  }

  /** One host request: the buffer size it passes, and what stateSize()
      would answer at that moment. */
  datatype Request = Request(size: nat, engineSize: nat)

  /** serialize_size after a series of requests. */
  function CacheAfter(cached: nat, reqs: seq<Request>): nat
    decreases |reqs|
  {
    if reqs == [] then cached else CacheAfter(CachedSize(cached, reqs[0].engineSize), reqs[1..])
  }

  /** Whether each request of a series is accepted. */
  function Verdicts(cached: nat, reqs: seq<Request>): (v: seq<bool>)
    ensures |v| == |reqs|
    decreases |reqs|
  {
    if reqs == [] then []
    else
      var c := CachedSize(cached, reqs[0].engineSize);
      [reqs[0].size == c] + Verdicts(c, reqs[1..])
  }

  /** Once the cache holds a size it never changes, and every later request
      is accepted exactly when its buffer has that size. */
  lemma {:induction false} CacheSticks(cached: nat, reqs: seq<Request>)
    requires cached != 0
    ensures CacheAfter(cached, reqs) == cached
    ensures forall i :: 0 <= i < |reqs| ==> (Verdicts(cached, reqs)[i] <==> reqs[i].size == cached)
  {
    if reqs != [] {
      CacheSticks(cached, reqs[1..]);
      forall i | 1 <= i < |reqs|
        ensures Verdicts(cached, reqs)[i] <==> reqs[i].size == cached
      {
        assert Verdicts(cached, reqs)[i] == Verdicts(cached, reqs[1..])[i - 1];
        assert reqs[1..][i - 1] == reqs[i];
      }
    }
  }

  /** A series of requests split in two: the second part starts from the
      cache the first part leaves. */
  lemma {:induction false} CacheAfterAppend(cached: nat, a: seq<Request>, b: seq<Request>)
    ensures CacheAfter(cached, a + b) == CacheAfter(CacheAfter(cached, a), b)
    ensures Verdicts(cached, a + b) == Verdicts(cached, a) + Verdicts(CacheAfter(cached, a), b)
    decreases |a|
  {
    if a == [] {
      assert a + b == b;
    } else {
      CacheAfterAppend(CachedSize(cached, a[0].engineSize), a[1..], b);
      assert (a + b)[0] == a[0] && (a + b)[1..] == a[1..] + b;
    }
  }

  /** A series whose first request already sees a non-zero engine size. */
  lemma NonZeroFirstSticks(reqs: seq<Request>)
    requires reqs != [] && reqs[0].engineSize != 0
    ensures CacheAfter(0, reqs) == reqs[0].engineSize
    ensures forall i :: 0 <= i < |reqs| ==> (Verdicts(0, reqs)[i] <==> reqs[i].size == reqs[0].engineSize)
  {
    var n := reqs[0].engineSize;
    CacheSticks(n, reqs[1..]);
    forall i | 1 <= i < |reqs|
      ensures Verdicts(0, reqs)[i] <==> reqs[i].size == n
    {
      assert Verdicts(0, reqs)[i] == Verdicts(n, reqs[1..])[i - 1];
      assert reqs[1..][i - 1] == reqs[i];
    }
  }

  /** The first non-zero size the engine reports is the one every request
      from then on is checked against, whatever stateSize() says later.
      Before it, while the engine reports 0, only a buffer of size 0 is
      accepted. */
  lemma FirstSizeWins(zeros: seq<Request>, reqs: seq<Request>)
    requires forall i :: 0 <= i < |zeros| ==> zeros[i].engineSize == 0
    requires reqs != [] && reqs[0].engineSize != 0
    ensures CacheAfter(0, zeros + reqs) == reqs[0].engineSize
    ensures forall i :: 0 <= i < |zeros| ==> (Verdicts(0, zeros + reqs)[i] <==> zeros[i].size == 0)
    ensures forall i :: |zeros| <= i < |zeros + reqs| ==>
              (Verdicts(0, zeros + reqs)[i] <==> (zeros + reqs)[i].size == reqs[0].engineSize)
  {
    CacheAfterAppend(0, zeros, reqs);
    ZeroSizeIsNotCached(zeros);
    NonZeroFirstSticks(reqs);
    forall i | |zeros| <= i < |zeros + reqs|
      ensures Verdicts(0, zeros + reqs)[i] <==> (zeros + reqs)[i].size == reqs[0].engineSize
    {
      assert Verdicts(0, zeros + reqs)[i] == Verdicts(0, reqs)[i - |zeros|];
      assert (zeros + reqs)[i] == reqs[i - |zeros|];
    }
  }

  /** While the engine reports size 0 the cache stays empty and is asked
      again on the next call, and only a buffer of size 0 is accepted. */
  lemma {:induction false} ZeroSizeIsNotCached(reqs: seq<Request>)
    requires forall i :: 0 <= i < |reqs| ==> reqs[i].engineSize == 0
    ensures CacheAfter(0, reqs) == 0
    ensures forall i :: 0 <= i < |reqs| ==> (Verdicts(0, reqs)[i] <==> reqs[i].size == 0)
  {
    if reqs != [] {
      ZeroSizeIsNotCached(reqs[1..]);
      forall i | 1 <= i < |reqs|
        ensures Verdicts(0, reqs)[i] <==> reqs[i].size == 0
      {
        assert Verdicts(0, reqs)[i] == Verdicts(0, reqs[1..])[i - 1];
        assert reqs[1..][i - 1] == reqs[i];
      }
    }
  }
}
