/**
 * The environment of a build (SimpleBuildWrapper.Context): a map the
 * service writes one binding at a time, the last write to a key winning.
 */
module Bindings {
  type Binding = (string, string)

  /** The environment after a sequence of writes, applied in order. */
  function ApplyWrites(env: map<string, string>, writes: seq<Binding>): map<string, string>
  {
    if writes == [] then env
    else
      var last := writes[|writes| - 1];
      ApplyWrites(env, writes[..|writes| - 1])[last.0 := last.1]
  }

  /** The bindings a run of items produces, each item giving its own bindings, in order. */
  function Writes<T>(items: seq<T>, write: T -> seq<Binding>): seq<Binding>
  {
    if items == [] then [] else Writes(items[..|items| - 1], write) + write(items[|items| - 1])
  }

  /** One more item adds its own bindings at the end. */
  lemma WritesStep<T>(items: seq<T>, i: nat, write: T -> seq<Binding>)
    requires i < |items|
    ensures Writes(items[..i + 1], write) == Writes(items[..i], write) + write(items[i])
  {
    assert items[..i + 1][..i] == items[..i];
  }

  /** The bindings of two runs are those of each, in turn. */
  lemma {:induction false} WritesAppend<T>(a: seq<T>, b: seq<T>, write: T -> seq<Binding>)
    ensures Writes(a + b, write) == Writes(a, write) + Writes(b, write)
  {
    if b == [] {
      assert a + b == a;
    } else {
      var init := b[..|b| - 1];
      assert (a + b)[..|a + b| - 1] == a + init;
      WritesAppend(a, init, write);
    }
  }

  /** A binding is produced by a run exactly when some item of the run produces it. */
  lemma {:induction false} WritesMembership<T>(items: seq<T>, write: T -> seq<Binding>, binding: Binding)
    ensures binding in Writes(items, write) <==> exists i :: 0 <= i < |items| && binding in write(items[i])
  {
    if items != [] {
      var init := items[..|items| - 1];
      WritesMembership(init, write, binding);
      if i :| 0 <= i < |items| && binding in write(items[i]) {
        if i < |init| {
          assert init[i] == items[i];
        }
      }
      if binding in Writes(init, write) {
        var i :| 0 <= i < |init| && binding in write(init[i]);
        assert items[i] == init[i];
      }
    }
  }

  /** One more write updates the environment at its key. */
  lemma ApplyWritesSnoc(env: map<string, string>, writes: seq<Binding>, w: Binding)
    ensures ApplyWrites(env, writes + [w]) == ApplyWrites(env, writes)[w.0 := w.1]
  {
    assert (writes + [w])[..|writes|] == writes;
  }

  /** Writing two runs in turn is writing their concatenation. */
  lemma {:induction false} ApplyWritesAppend(env: map<string, string>, a: seq<Binding>, b: seq<Binding>)
    ensures ApplyWrites(env, a + b) == ApplyWrites(ApplyWrites(env, a), b)
  {
    if b == [] {
      assert a + b == a;
    } else {
      assert (a + b)[..|a + b| - 1] == a + b[..|b| - 1];
      ApplyWritesAppend(env, a, b[..|b| - 1]);
    }
  }

  /** The writes override the environment: what they write wins, everything else is kept. */
  lemma {:induction false} ApplyWritesOverride(env: map<string, string>, writes: seq<Binding>)
    ensures ApplyWrites(env, writes) == env + ApplyWrites(map[], writes)
  {
    if writes != [] {
      ApplyWritesOverride(env, writes[..|writes| - 1]);
    }
  }

  /** Applying the same writes twice leaves what applying them once gave. */
  lemma ApplyWritesIdempotent(env: map<string, string>, writes: seq<Binding>)
    ensures ApplyWrites(ApplyWrites(env, writes), writes) == ApplyWrites(env, writes)
  {
    var m := ApplyWrites(map[], writes);
    ApplyWritesOverride(env, writes);
    ApplyWritesOverride(env + m, writes);
    assert (env + m) + m == env + m;
  }

  /** A key is bound afterwards exactly when it was bound before or some write names it. */
  lemma {:induction false} ApplyWritesKeys(env: map<string, string>, writes: seq<Binding>, k: string)
    ensures k in ApplyWrites(env, writes) <==> k in env || exists i :: 0 <= i < |writes| && writes[i].0 == k
  {
    if writes != [] {
      var init := writes[..|writes| - 1];
      ApplyWritesKeys(env, init, k);
      if i :| 0 <= i < |writes| && writes[i].0 == k {
        if i < |init| {
          assert init[i].0 == k;
        }
      }
    }
  }

  /** A key holds the value of its last write. */
  lemma {:induction false} ApplyWritesLastWins(env: map<string, string>, writes: seq<Binding>, i: nat)
    requires i < |writes|
    requires forall j :: i < j < |writes| ==> writes[j].0 != writes[i].0
    ensures writes[i].0 in ApplyWrites(env, writes)
    ensures ApplyWrites(env, writes)[writes[i].0] == writes[i].1
  {
    if i < |writes| - 1 {
      ApplyWritesLastWins(env, writes[..|writes| - 1], i);
    }
  }

  /** A key no write names keeps its old binding. */
  lemma {:induction false} ApplyWritesUntouched(env: map<string, string>, writes: seq<Binding>, k: string)
    requires forall i :: 0 <= i < |writes| ==> writes[i].0 != k
    ensures (k in ApplyWrites(env, writes)) == (k in env)
    ensures k in env ==> ApplyWrites(env, writes)[k] == env[k]
  {
    if writes != [] {
      ApplyWritesUntouched(env, writes[..|writes| - 1], k);
    }
  }

  /** The build's environment, which the service adds bindings to. */
  class Context {
    var env: map<string, string>

    constructor ()
      ensures env == map[]
    {
      env := map[];
    }

    /** Binds `key` to `value`, replacing an earlier binding of `key`. */
    method Env(key: string, value: string)
      modifies this
      ensures env == old(env)[key := value]
    {
      env := env[key := value];
    }
  }
}
