/** The heartbeat wake-up task: one silent notification to every registered
    token per cycle, pruning the tokens the gateway answers with an error. */
module Notifier {
  import opened Apns
  import opened Store

  /** What the world outside the loop does during one cycle: how the store's
      iterator enumerates a given store, what the gateway answers for each
      token, and whether each removal the loop makes succeeds. */
  datatype Environment = Environment(
    iterate: map<string, seq<byte>> -> seq<Item>,
    reply: string -> SendResult,
    removeIo: string -> Io)

  predicate Distinct(s: seq<string>) {
    forall i, j :: 0 <= i < j < |s| ==> s[i] != s[j]
  }

  // ---------------------------------------------------------------------------
  // The snapshot

  /** The snapshot collected before the loop: the keys of the iterator's
      entries, in iteration order, with read errors skipped. */
  function Snapshot(items: seq<Item>): (tokens: seq<string>)
    ensures |tokens| <= |items|
    ensures forall i :: 0 <= i < |items| && items[i].Entry? ==> items[i].key in tokens
    ensures forall t :: t in tokens ==>
              exists i :: 0 <= i < |items| && items[i].Entry? && items[i].key == t
    ensures AllRead(items) ==> |tokens| == |items|
  {
    if items == [] then []
    else match items[0]
      case Entry(key, _) => [key] + Snapshot(items[1..])
      case ReadError => Snapshot(items[1..])
  }

  /** The snapshot keeps the iteration order: it distributes over concatenation. */
  lemma {:induction false} SnapshotAppend(a: seq<Item>, b: seq<Item>)
    ensures Snapshot(a + b) == Snapshot(a) + Snapshot(b)
  {
    if a == [] {
      assert a + b == b;
    } else {
      assert (a + b)[0] == a[0];
      assert (a + b)[1..] == a[1..] + b;
      SnapshotAppend(a[1..], b);
    }
  }

  /** Distinct entries give a snapshot without repetitions. */
  lemma {:induction false} SnapshotDistinct(items: seq<Item>)
    requires DistinctEntries(items)
    ensures Distinct(Snapshot(items))
  {
    if items != [] {
      var rest := items[1..];
      forall i, j | 0 <= i < j < |rest| && rest[i].Entry? && rest[j].Entry?
        ensures rest[i].key != rest[j].key
      {
        assert rest[i] == items[i + 1] && rest[j] == items[j + 1];
      }
      SnapshotDistinct(rest);
      if items[0].Entry? {
        var key := items[0].key;
        forall i | 0 <= i < |rest| && rest[i].Entry? ensures rest[i].key != key {
          assert rest[i] == items[i + 1];
        }
        assert key !in Snapshot(rest);
        var s := Snapshot(items);
        assert s == [key] + Snapshot(rest);
        forall i, j | 0 <= i < j < |s| ensures s[i] != s[j] {
          if i == 0 {
            assert s[j] == Snapshot(rest)[j - 1] && s[j] in Snapshot(rest);
          } else {
            assert s[i] == Snapshot(rest)[i - 1] && s[j] == Snapshot(rest)[j - 1];
          }
        }
      }
    }
  }

  /** A sequence without repetitions has as many elements as its set. */
  lemma {:induction false} DistinctCardinality(s: seq<string>)
    requires Distinct(s)
    ensures |set t | t in s| == |s|
  {
    if s != [] {
      var rest := s[1..];
      assert Distinct(rest) by {
        forall i, j | 0 <= i < j < |rest| ensures rest[i] != rest[j] {
          assert rest[i] == s[i + 1] && rest[j] == s[j + 1];
        }
      }
      DistinctCardinality(rest);
      assert s[0] !in rest by {
        forall i | 0 <= i < |rest| ensures rest[i] != s[0] {
          assert rest[i] == s[i + 1];
        }
      }
      assert (set t | t in s) == {s[0]} + (set t | t in rest);
    }
  }

  /** The snapshot of an iteration over `m` holds keys of `m` only, each once;
      when no read fails it holds every key of `m`. */
  lemma SnapshotOfIteration(items: seq<Item>, m: map<string, seq<byte>>)
    requires IsIterationOf(items, m)
    ensures Distinct(Snapshot(items))
    ensures forall t :: t in Snapshot(items) ==> t in m
    ensures AllRead(items) ==> |Snapshot(items)| == |m| && forall k :: k in m ==> k in Snapshot(items)
  {
    var s := Snapshot(items);
    SnapshotDistinct(items);
    if AllRead(items) {
      DistinctCardinality(s);
      var seen := set t | t in s;
      assert seen <= m.Keys;
      forall k | k in m ensures k in s {
        if k !in s {
          assert seen <= m.Keys - {k};
          assert |m.Keys - {k}| == |m| - 1;
          SubsetCardinality(seen, m.Keys - {k});
          assert false;
        }
      }
    }
  }

  lemma {:induction false} SubsetCardinality(a: set<string>, b: set<string>)
    requires a <= b
    ensures |a| <= |b|
    decreases |b|
  {
    if a != {} {
      var x :| x in a;
      SubsetCardinality(a - {x}, b - {x});
    }
  }

  // ---------------------------------------------------------------------------
  // One cycle

  /** The snapshot tokens the loop removes: those whose send came back with a
      response error, of any code, and whose removal succeeded. */
  function Pruned(tokens: seq<string>, env: Environment): (p: set<string>)
  {
    set t | t in tokens && env.reply(t).ResponseError? && env.removeIo(t) == Done
  }

  /** The store after one cycle started on store `m`. */
  function AfterCycle(m: map<string, seq<byte>>, env: Environment): map<string, seq<byte>> {
    m - Pruned(Snapshot(env.iterate(m)), env)
  }

  /** A cycle adds no key and changes no value; a key goes exactly when it is
      in the snapshot, its send came back with a response error and its
      removal succeeded. */
  lemma CycleRemoves(m: map<string, seq<byte>>, env: Environment)
    ensures SubMap(AfterCycle(m, env), m)
    ensures forall k :: k in m && k !in AfterCycle(m, env) <==>
              k in m && k in Snapshot(env.iterate(m)) && env.reply(k).ResponseError? && env.removeIo(k) == Done
  {
  }

  /** `sent` is one silent send through `endpoint` per token, in token order,
      each for the full stored token. */
  ghost predicate FanOut(sent: seq<Request>, endpoint: Endpoint, tokens: seq<string>) {
    && |sent| == |tokens|
    && forall i :: 0 <= i < |sent| ==> sent[i] == Request(endpoint, tokens[i], Silent)
  }

  /** One more token handled: the store loses that token exactly when it is pruned. */
  lemma PrunedStep(m: map<string, seq<byte>>, tokens: seq<string>, i: nat, env: Environment)
    requires i < |tokens|
    ensures var before := m - Pruned(tokens[..i], env);
            m - Pruned(tokens[..i + 1], env) ==
              if env.reply(tokens[i]).ResponseError? && env.removeIo(tokens[i]) == Done
              then before - {tokens[i]} else before
  {
    assert tokens[..i + 1] == tokens[..i] + [tokens[i]];
  }

  lemma FanOutStep(sent: seq<Request>, endpoint: Endpoint, tokens: seq<string>, i: nat)
    requires i < |tokens| && FanOut(sent, endpoint, tokens[..i])
    ensures FanOut(sent + [Request(endpoint, tokens[i], Silent)], endpoint, tokens[..i + 1])
  {
  }

  /** `wakeup`: snapshot the keys, then for each one build a silent payload,
      send it, and remove the key on any response error. */
  method Wakeup(db: Db, endpoint: Endpoint, env: Environment) returns (sent: seq<Request>)
    // The iterator enumerates the store as sled does; Wakeup's own contract does
    // not need this, but CycleSendsOnce and CycleKeeps rely on it about the same pass.
    requires IsIterationOf(env.iterate(db.entries), db.entries)
    modifies db
    ensures FanOut(sent, endpoint, Snapshot(env.iterate(old(db.entries))))
    ensures db.entries == AfterCycle(old(db.entries), env)
  {
    var tokens := Snapshot(env.iterate(db.entries));
    ghost var m := db.entries;
    sent := [];
    for i := 0 to |tokens|
      invariant FanOut(sent, endpoint, tokens[..i])
      invariant db.entries == m - Pruned(tokens[..i], env)
    {
      var token := tokens[i];
      FanOutStep(sent, endpoint, tokens, i);
      sent := sent + [Request(endpoint, token, Silent)];
      PrunedStep(m, tokens, i, env);
      match env.reply(token) {
        case Ok(_) =>
        case ResponseError(_) =>
          var _ := db.Remove(token, env.removeIo(token));
        case OtherError =>
      }
    }
    assert tokens[..|tokens|] == tokens;
  }

  // ---------------------------------------------------------------------------
  // What a cycle does

  /** With every entry read, a key survives the cycle exactly when its send did
      not return a response error or its removal failed. */
  lemma CycleKeeps(m: map<string, seq<byte>>, env: Environment)
    requires IsIterationOf(env.iterate(m), m) && AllRead(env.iterate(m))
    ensures forall k :: k in AfterCycle(m, env) <==>
              k in m && !(env.reply(k).ResponseError? && env.removeIo(k) == Done)
  {
    SnapshotOfIteration(env.iterate(m), m);
  }

  /** A cycle sends to store keys only, never twice to one key, and, with
      every entry read, to every key. */
  lemma CycleSendsOnce(m: map<string, seq<byte>>, env: Environment, endpoint: Endpoint, sent: seq<Request>)
    requires IsIterationOf(env.iterate(m), m)
    requires FanOut(sent, endpoint, Snapshot(env.iterate(m)))
    ensures forall i :: 0 <= i < |sent| ==> sent[i].token in m
    ensures forall i, j :: 0 <= i < j < |sent| ==> sent[i].token != sent[j].token
    ensures AllRead(env.iterate(m)) ==>
              forall k :: k in m ==> exists i :: 0 <= i < |sent| && sent[i] == Request(endpoint, k, Silent)
  {
    var s := Snapshot(env.iterate(m));
    SnapshotOfIteration(env.iterate(m), m);
    assert forall i :: 0 <= i < |sent| ==> sent[i].token == s[i];
    if AllRead(env.iterate(m)) {
      forall k | k in m ensures exists i :: 0 <= i < |sent| && sent[i] == Request(endpoint, k, Silent) {
        var i :| 0 <= i < |s| && s[i] == k;
        assert sent[i] == Request(endpoint, k, Silent);
      }
    }
  }

  /** An empty store gives a cycle with no send and no change. */
  lemma EmptyCycle(env: Environment)
    requires IsIterationOf(env.iterate(map[]), map[])
    ensures Snapshot(env.iterate(map[])) == []
    ensures AfterCycle(map[], env) == map[]
  {
  }

  /** Sends are independent: what the gateway answers for one token decides
      nothing about any other token. */
  lemma CycleIndependent(m: map<string, seq<byte>>, env1: Environment, env2: Environment, t: string)
    requires env1.iterate == env2.iterate
    requires forall k :: k != t ==> env1.reply(k) == env2.reply(k) && env1.removeIo(k) == env2.removeIo(k)
    ensures forall k :: k != t ==> (k in AfterCycle(m, env1) <==> k in AfterCycle(m, env2))
  {
  }

  // ---------------------------------------------------------------------------
  // The task

  /** `history[k + 1]` is the store after cycle `k` run on `history[k]` with
      `cycles[k]`, and `sent[k]` is that cycle's fan-out. */
  ghost predicate Run(endpoint: Endpoint, cycles: seq<Environment>, sent: seq<seq<Request>>,
                      history: seq<map<string, seq<byte>>>)
  {
    && |history| == |sent| + 1 && |sent| <= |cycles|
    && (forall k :: 0 <= k < |sent| ==> history[k + 1] == AfterCycle(history[k], cycles[k]))
    && (forall k :: 0 <= k < |sent| ==> FanOut(sent[k], endpoint, Snapshot(cycles[k].iterate(history[k]))))
  }

  lemma RunExtend(endpoint: Endpoint, cycles: seq<Environment>, sent: seq<seq<Request>>,
                  history: seq<map<string, seq<byte>>>, s: seq<Request>, m: map<string, seq<byte>>)
    requires Run(endpoint, cycles, sent, history) && |sent| < |cycles|
    requires m == AfterCycle(history[|sent|], cycles[|sent|])
    requires FanOut(s, endpoint, Snapshot(cycles[|sent|].iterate(history[|sent|])))
    ensures Run(endpoint, cycles, sent + [s], history + [m])
  {
  }

  /** Along a run the store only shrinks: every store is a sub-map of every
      earlier one. */
  lemma {:induction false} RunShrinks(endpoint: Endpoint, cycles: seq<Environment>, sent: seq<seq<Request>>,
                                      history: seq<map<string, seq<byte>>>)
    requires Run(endpoint, cycles, sent, history)
    ensures forall i, j :: 0 <= i <= j < |history| ==> SubMap(history[j], history[i])
  {
    if sent != [] {
      var n := |sent| - 1;
      assert Run(endpoint, cycles, sent[..n], history[..n + 1]);
      RunShrinks(endpoint, cycles, sent[..n], history[..n + 1]);
      CycleRemoves(history[n], cycles[n]);
      forall i, j | 0 <= i <= j < |history| ensures SubMap(history[j], history[i]) {
        if j == n + 1 && i <= n {
          assert SubMap(history[n], history[i]) by {
            assert history[..n + 1][n] == history[n] && history[..n + 1][i] == history[i];
          }
        } else if j <= n {
          assert history[..n + 1][j] == history[j] && history[..n + 1][i] == history[i];
        }
      }
    }
  }

  /** `start`: builds the client (which can fail), runs one cycle at once and
      then one per interval tick; `ticks` ticks arrive before the task ends and
      `cycles[k]` is the world during cycle `k`. `history[k]` is the store
      before cycle `k` and `sent[k]` the sends it made. */
  method Start(db: Db, endpoint: Endpoint, certificate: Io, ticks: nat, cycles: seq<Environment>)
    returns (ok: bool, runs: nat, sent: seq<seq<Request>>, history: seq<map<string, seq<byte>>>)
    requires |cycles| == ticks + 1
    requires forall k, m :: 0 <= k < |cycles| ==> IsIterationOf(cycles[k].iterate(m), m)
    modifies db
    ensures ok <==> certificate == Done
    ensures runs == if ok then ticks + 1 else 0
    ensures |sent| == runs && |history| == runs + 1
    ensures history[0] == old(db.entries) && history[runs] == db.entries
    ensures forall k :: 0 <= k < runs ==> history[k + 1] == AfterCycle(history[k], cycles[k])
    ensures forall k :: 0 <= k < runs ==> FanOut(sent[k], endpoint, Snapshot(cycles[k].iterate(history[k])))
    ensures forall i, j :: 0 <= i <= j <= runs ==> SubMap(history[j], history[i])
  {
    history := [db.entries];
    sent := [];
    runs := 0;
    if certificate == Failed {
      return false, runs, sent, history;
    }
    ok := true;
    var tick := 0;
    var first := Wakeup(db, endpoint, cycles[0]);
    RunExtend(endpoint, cycles, sent, history, first, db.entries);
    sent, history, runs := [first], history + [db.entries], 1;
    while tick < ticks
      invariant Run(endpoint, cycles, sent, history)
      invariant 0 <= tick <= ticks && runs == tick + 1 && |sent| == runs
      invariant history[0] == old(db.entries) && history[runs] == db.entries
    {
      var s := Wakeup(db, endpoint, cycles[runs]);
      RunExtend(endpoint, cycles, sent, history, s, db.entries);
      sent, history, runs := sent + [s], history + [db.entries], runs + 1;
      tick := tick + 1;
    }
    RunShrinks(endpoint, cycles, sent, history);
  }
}
