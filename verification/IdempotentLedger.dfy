/** The client's retries against a server that names each create by its key: the
  * create happens once (mcp/src/client.ts, mcp/README.md "Retrying a create").
  */
module IdempotentLedger {
  import opened Wrappers
  import opened RetryClient

  /** What the server has carried out, and the answer it holds for each key: the
    * position of the record the key created.
    */
  datatype Ledger = Ledger(created: seq<Call>, answers: map<Key, nat>)

  /** The key that arrives with a request: an empty one does not. */
  function HeaderKey(call: Call): Option<Key> {
    if call.key == Some(EMPTY_KEY) then None else call.key
  }

  function Carry(l: Ledger, call: Call): Ledger {
    var key := HeaderKey(call);
    if key.Some? && key.value in l.answers then l
    else Ledger(l.created + [call], if key.Some? then l.answers[key.value := |l.created|] else l.answers)
  }

  function Serve(l: Ledger, arrivals: seq<Call>): Ledger
    decreases |arrivals|
  {
    if arrivals == [] then l else Serve(Carry(l, arrivals[0]), arrivals[1..])
  }

  function Times(calls: seq<Call>, k: Key): nat {
    if calls == [] then 0
    else (if HeaderKey(calls[|calls| - 1]) == Some(k) then 1 else 0) + Times(calls[..|calls| - 1], k)
  }

  predicate Arrives(arrivals: seq<Call>, k: Key) {
    exists i :: 0 <= i < |arrivals| && HeaderKey(arrivals[i]) == Some(k)
  }

  lemma OneArrival(l: Ledger, call: Call, k: Key)
    ensures Times(Carry(l, call).created, k) ==
            Times(l.created, k) + (if k !in l.answers && HeaderKey(call) == Some(k) then 1 else 0)
    ensures k in Carry(l, call).answers <==> k in l.answers || HeaderKey(call) == Some(k)
  {
    var after := Carry(l, call);
    if after != l {
      assert after.created[..|after.created| - 1] == l.created;
    }
  }

  /** Whatever arrives, in whatever order and however often, a key the server has not
    * seen creates one record if it arrives at all, and none otherwise; a key it has
    * seen creates nothing.
    */
  lemma {:induction false} OncePerKey(l: Ledger, arrivals: seq<Call>, k: Key)
    ensures k in l.answers ==> Times(Serve(l, arrivals).created, k) == Times(l.created, k)
    ensures k !in l.answers ==>
              Times(Serve(l, arrivals).created, k) == Times(l.created, k) + (if Arrives(arrivals, k) then 1 else 0)
    ensures k in Serve(l, arrivals).answers <==> k in l.answers || Arrives(arrivals, k)
    decreases |arrivals|
  {
    if arrivals != [] {
      OneArrival(l, arrivals[0], k);
      OncePerKey(Carry(l, arrivals[0]), arrivals[1..], k);
      ArrivesFirst(arrivals, k);
    }
  }

  lemma ArrivesFirst(arrivals: seq<Call>, k: Key)
    requires arrivals != []
    ensures Arrives(arrivals, k) <==> HeaderKey(arrivals[0]) == Some(k) || Arrives(arrivals[1..], k)
  {
    if Arrives(arrivals, k) && HeaderKey(arrivals[0]) != Some(k) {
      var i :| 0 <= i < |arrivals| && HeaderKey(arrivals[i]) == Some(k);
      assert HeaderKey(arrivals[1..][i - 1]) == Some(k);
    }
    if Arrives(arrivals[1..], k) {
      var i :| 0 <= i < |arrivals[1..]| && HeaderKey(arrivals[1..][i]) == Some(k);
      assert HeaderKey(arrivals[i + 1]) == Some(k);
    }
  }

  /** The attempts of one call that the server carried out, in the order it got to
    * them: an attempt whose connection dropped may be among them or not, and may
    * come after later ones; one that was answered 2xx is among them.
    */
  ghost predicate CarriedOut(fates: seq<Fate>, order: seq<nat>) {
    && (forall n :: 0 <= n < |order| ==> order[n] < |fates| && MayHaveRun(fates[order[n]]))
    && (forall m, n :: 0 <= m < n < |order| ==> order[m] != order[n])
    && (forall i :: 0 <= i < |fates| && fates[i].Replied? && 200 <= fates[i].status <= 299 ==> i in order)
  }

  function Copies(call: Call, n: nat): seq<Call> {
    seq(n, i => call)
  }

  lemma {:induction false} ServeCopies(l: Ledger, call: Call, n: nat)
    requires HeaderKey(call).Some? && HeaderKey(call).value !in l.answers
    ensures Serve(l, Copies(call, n)).created == l.created + (if n == 0 then [] else [call])
  {
    if n > 0 {
      var mid := Carry(l, call);
      assert Copies(call, n)[1..] == Copies(call, n - 1);
      ServeSeen(mid, call, n - 1);
    }
  }

  lemma {:induction false} ServeSeen(l: Ledger, call: Call, n: nat)
    requires HeaderKey(call).Some? && HeaderKey(call).value in l.answers
    ensures Serve(l, Copies(call, n)) == l
  {
    if n > 0 {
      assert Copies(call, n)[1..] == Copies(call, n - 1);
      ServeSeen(l, call, n - 1);
    }
  }

  /** For every schedule of drops, expiries and answers, a keyed create leaves at
    * most one record, and exactly one when the call reports success; the success
    * is the answer for that record.
    */
  lemma CreateHappensOnce(l: Ledger, call: Call, world: World, at: nat, order: seq<nat>)
    requires HeaderKey(call).Some? && HeaderKey(call).value !in l.answers
    requires CarriedOut(Play(call, world, at, false, false).0, order)
    ensures var end := Play(call, world, at, false, false).1;
            var l' := Serve(l, Copies(call, |order|));
            && (l'.created == l.created || l'.created == l.created + [call])
            && (l'.created == l.created + [call] <==> order != [])
            && (end.Ok? ==> l'.created == l.created + [call])
            && (end.Ok? ==> HeaderKey(call).value in l'.answers && l'.answers[HeaderKey(call).value] == |l.created|)
  {
    PlayShape(call, world, at);
    ServeCopies(l, call, |order|);
    OncePerKey(l, Copies(call, |order|), HeaderKey(call).value);
    if order != [] {
      AnswerIsTheRecord(l, call, |order|);
    }
  }

  lemma AnswerIsTheRecord(l: Ledger, call: Call, n: nat)
    requires HeaderKey(call).Some? && HeaderKey(call).value !in l.answers && n > 0
    ensures HeaderKey(call).value in Serve(l, Copies(call, n)).answers
    ensures Serve(l, Copies(call, n)).answers[HeaderKey(call).value] == |l.created|
  {
    var mid := Carry(l, call);
    assert Copies(call, n)[1..] == Copies(call, n - 1);
    ServeSeen(mid, call, n - 1);
  }

  /** Without a key the same holds for another reason: the client never resends after
    * a drop, so only the last attempt can have been carried out.
    */
  lemma KeylessRunsOnce(call: Call, world: World, at: nat, order: seq<nat>)
    requires call.key.None?
    requires CarriedOut(Play(call, world, at, false, false).0, order)
    ensures |order| <= 1
    ensures Play(call, world, at, false, false).1.Ok? ==> |order| == 1
  {
    assert |order| > 1 ==> order[0] != order[1];
    PlayShape(call, world, at);
    var fates := Play(call, world, at, false, false).0;
    forall n | 0 <= n < |order| ensures order[n] == |fates| - 1 {
      assert MayHaveRun(fates[order[n]]);
    }
  }

  /** With two keys for two attempts of the same create there would be two records:
    * it is the key, not the retry limit, that makes the create happen once.
    */
  lemma TwoKeysTwoRecords(l: Ledger, call: Call, k1: Key, k2: Key)
    requires k1 != k2 && EMPTY_KEY !in {k1, k2} && k1 !in l.answers && k2 !in l.answers
    ensures |Serve(l, [call.(key := Some(k1)), call.(key := Some(k2))]).created| == |l.created| + 2
  {
    var a := call.(key := Some(k1));
    var b := call.(key := Some(k2));
    assert [a, b][1..] == [b];
    assert Serve(Carry(Carry(l, a), b), [b][1..]) == Carry(Carry(l, a), b);
  }

  // ---- The empty key ---------------------------------------------------------------------

  /** Whatever the world does, the call leaves at most one record. */
  ghost predicate AtMostOnce(call: Call) {
    forall l, world, at, order ::
      Fresh(l, call) && CarriedOut(Play(call, world, at, false, false).0, order) ==>
        |Serve(l, Copies(call, |order|)).created| <= |l.created| + 1
  }

  predicate Fresh(l: Ledger, call: Call) {
    HeaderKey(call).Some? ==> HeaderKey(call).value !in l.answers
  }

  /** A drop after which the server carries the call out, and then a success. */
  function DropThenSuccess(): World {
    (n: nat) => if n == 0 then Dropped else Replied(201, true)
  }

  lemma EmptyKeyTwoRecords(call: Call)
    requires call.key == Some(EMPTY_KEY) && !call.body.Form?
    ensures Play(call, DropThenSuccess(), 0, false, false) == ([Dropped, Replied(201, true)], Ok(201))
    ensures CarriedOut([Dropped, Replied(201, true)], [0, 1])
    ensures |Serve(Ledger([], map[]), Copies(call, 2)).created| == 2
  {
    assert Play(call, DropThenSuccess(), 1, false, true) == ([Replied(201, true)], Ok(201));
    assert [Dropped] + [Replied(201, true)] == [Dropped, Replied(201, true)];
    var l := Carry(Ledger([], map[]), call);
    assert Copies(call, 2)[1..] == Copies(call, 1) && Copies(call, 1)[1..] == Copies(call, 0);
    assert Serve(l, Copies(call, 1)) == Serve(Carry(l, call), Copies(call, 0));
    assert 1 in [0, 1];
  }

  lemma UnsentAgainOnce(call: Call, l: Ledger, world: World, at: nat, order: seq<nat>)
    requires call.key.None? || call.body.Form?
    requires CarriedOut(Play(call, world, at, false, false).0, order)
    ensures |order| <= 1 && |Serve(l, Copies(call, |order|)).created| <= |l.created| + 1
  {
    if call.key.None? {
      KeylessRunsOnce(call, world, at, order);
    } else {
      assert |order| > 1 ==> order[0] != order[1];
      PlayShape(call, world, at);
    }
    if |order| == 1 {
      assert Copies(call, 1)[1..] == Copies(call, 0);
    }
  }

  /** Every call leaves at most one record under every schedule, but for one kind: a call
    * that is no upload, with a key that is empty. The client sends it again after a drop
    * as if it had a key, and the server cannot tell that it is the same.
    */
  lemma AtMostOnceIff(call: Call)
    ensures AtMostOnce(call) <==> call.key != Some(EMPTY_KEY) || call.body.Form?
  {
    if call.key == Some(EMPTY_KEY) && !call.body.Form? {
      EmptyKeyTwoRecords(call);
      var l := Ledger([], map[]);
      assert Fresh(l, call);
      assert |Serve(l, Copies(call, |[0, 1]|)).created| > |l.created| + 1;
    } else {
      forall l, world, at, order | Fresh(l, call) && CarriedOut(Play(call, world, at, false, false).0, order)
        ensures |Serve(l, Copies(call, |order|)).created| <= |l.created| + 1
      {
        if HeaderKey(call).Some? {
          CreateHappensOnce(l, call, world, at, order);
        } else {
          UnsentAgainOnce(call, l, world, at, order);
        }
      }
    }
  }
}
