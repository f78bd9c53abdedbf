/**
 * Sequential semantics of the restricted pipeline library: a producer
 * followed by worker stages, where a worker may answer a message with one
 * message, with none (a bubble), with several (a multiple), or by raising.
 * Pulling runs each produced message through every stage before the next
 * one is produced.
 */
module Pipeline {

  /** What a stage answers to one message. */
  datatype Out<M> = Value(msg: M) | Bubble | Multiple(msgs: seq<M>) | Raise

  /** A worker coroutine, seen as the function from the message it is sent to its answer. */
  type Worker<!M> = M -> Out<M>

  /**
   * A stage: one worker, or a tuple of workers meant to run in parallel.
   * Sequential execution uses only the first.
   */
  datatype Stage<!M> = Stage(first: Worker<M>, rest: seq<Worker<M>>)

  /** The outcome of running a batch of messages through stages. */
  datatype Outcome<M> = Done(msgs: seq<M>) | Failed

  /** What a pull delivers: the messages it yielded, and whether it then raised. */
  datatype PullResult<M> = PullResult(out: seq<M>, raised: bool)

  /** The messages an answer stands for: a bubble stands for none, a multiple for each of its messages in order. */
  function AllMsgs<M>(o: Out<M>): (ms: seq<M>)
    requires !o.Raise?
    ensures o.Value? ==> ms == [o.msg]
    ensures o.Bubble? ==> ms == []
    ensures o.Multiple? ==> ms == o.msgs
  {
    match o
    case Value(m) => [m]
    case Bubble => []
    case Multiple(ms) => ms
  }

  /** Sends a batch of messages, in order, to one worker and collects what it answers. */
  function Send<M>(w: Worker<M>, msgs: seq<M>): Outcome<M> {
    if msgs == [] then Done([])
    else if w(msgs[0]).Raise? then Failed
    else
      match Send(w, msgs[1..])
      case Failed => Failed
      case Done(rest) => Done(AllMsgs(w(msgs[0])) + rest)
  }

  /** Runs a batch through the stages in order; any raise ends the batch. */
  function Through<M>(stages: seq<Stage<M>>, msgs: seq<M>): Outcome<M> {
    if stages == [] then Done(msgs)
    else
      match Send(stages[0].first, msgs)
      case Failed => Failed
      case Done(next) => Through(stages[1..], next)
  }

  /**
   * Pulls the pipeline: each answer of the producer is run through all the
   * stages, and what comes out is yielded before the producer is resumed.
   * A raise, by the producer or by a stage, ends the pull; what was yielded
   * before it stays yielded, and the batch being processed is lost.
   */
  function Pull<M>(src: seq<Out<M>>, stages: seq<Stage<M>>): (r: PullResult<M>)
    ensures !r.raised ==> forall i :: 0 <= i < |src| ==> !src[i].Raise?
  {
    if src == [] then PullResult([], false)
    else if src[0].Raise? then PullResult([], true)
    else
      match Through(stages, AllMsgs(src[0]))
      case Failed => PullResult([], true)
      case Done(ms) =>
        var r := Pull(src[1..], stages);
        PullResult(ms + r.out, r.raised)
  }

  /**
   * A sequential run whose last stage is a consumer: `accepts(m)` is false
   * when the consumer raises on `m`. The result lists what the consumer
   * received before any raise, and whether the run raised.
   */
  function RunSequential<M>(src: seq<Out<M>>, stages: seq<Stage<M>>, accepts: M -> bool): (r: PullResult<M>)
    ensures forall i :: 0 <= i < |r.out| ==> accepts(r.out[i])
    ensures !r.raised ==> forall i :: 0 <= i < |src| ==> !src[i].Raise?
  {
    if src == [] then PullResult([], false)
    else if src[0].Raise? then PullResult([], true)
    else
      match Through(stages, AllMsgs(src[0]))
      case Failed => PullResult([], true)
      case Done(ms) =>
        var fed := Feed(ms, accepts);
        if fed.raised then fed
        else
          var r := RunSequential(src[1..], stages, accepts);
          PullResult(ms + r.out, r.raised)
  }

  /** Hands messages to the consumer in order until it raises. */
  function Feed<M>(ms: seq<M>, accepts: M -> bool): (r: PullResult<M>)
    ensures r.out <= ms
    ensures !r.raised <==> forall i :: 0 <= i < |ms| ==> accepts(ms[i])
    ensures r.raised ==> |r.out| < |ms| && !accepts(ms[|r.out|]) && forall i :: 0 <= i < |r.out| ==> accepts(ms[i])
    ensures !r.raised ==> r.out == ms
  {
    if ms == [] then PullResult([], false)
    else if !accepts(ms[0]) then PullResult([], true)
    else
      var r := Feed(ms[1..], accepts);
      assert forall i :: 1 <= i < |ms| ==> ms[1..][i - 1] == ms[i];
      PullResult([ms[0]] + r.out, r.raised)
  }

  /** A pulled pipeline used as the producer of another: its messages, then its raise if it raised. */
  function AsSource<M>(r: PullResult<M>): (src: seq<Out<M>>)
    ensures |src| == |r.out| + (if r.raised then 1 else 0)
  {
    Values(r.out) + (if r.raised then [Raise] else [])
  }

  function Values<M>(ms: seq<M>): (src: seq<Out<M>>)
    ensures |src| == |ms| && forall i :: 0 <= i < |ms| ==> src[i] == Value(ms[i])
  {
    seq(|ms|, i requires 0 <= i < |ms| => Value(ms[i]))
  }

  /**
   * The stage decorator: `StageOf(f, n)` is the worker that answers each
   * message `i` with `f(n, i)`.
   */
  function StageOf<A, M>(f: (A, M) -> Out<M>, n: A): Worker<M> {
    i => f(n, i)
  }

  /**
   * The mutator-stage decorator: `mutate(n, i)` is message `i` after the
   * decorated function has changed it in place, and the worker forwards it.
   */
  function MutatorStageOf<A, M>(mutate: (A, M) -> M, n: A): Worker<M> {
    i => Value(mutate(n, i))
  }

  /*** Reference semantics: stage by stage ***/

  /** The producer's messages up to its first raise. */
  function SourceMsgs<M>(src: seq<Out<M>>): seq<M> {
    if src == [] || src[0].Raise? then [] else AllMsgs(src[0]) + SourceMsgs(src[1..])
  }

  predicate NoRaise<M>(src: seq<Out<M>>) {
    forall i :: 0 <= i < |src| ==> !src[i].Raise?
  }

  lemma {:induction false} SendAppend<M>(w: Worker<M>, a: seq<M>, b: seq<M>)
    ensures Send(w, a + b) == (match Send(w, a)
      case Failed => Failed
      case Done(x) => (match Send(w, b) case Failed => Failed case Done(y) => Done(x + y)))
  {
    if a == [] {
      assert a + b == b;
    } else {
      assert (a + b)[0] == a[0];
      assert (a + b)[1..] == a[1..] + b;
      SendAppend(w, a[1..], b);
      if !w(a[0]).Raise? && Send(w, a[1..]).Done? && Send(w, b).Done? {
        assert AllMsgs(w(a[0])) + (Send(w, a[1..]).msgs + Send(w, b).msgs)
            == (AllMsgs(w(a[0])) + Send(w, a[1..]).msgs) + Send(w, b).msgs;
      }
    }
  }

  lemma {:induction false} ThroughAppend<M>(stages: seq<Stage<M>>, a: seq<M>, b: seq<M>)
    ensures Through(stages, a + b) == (match Through(stages, a)
      case Failed => Failed
      case Done(x) => (match Through(stages, b) case Failed => Failed case Done(y) => Done(x + y)))
  {
    if stages != [] {
      SendAppend(stages[0].first, a, b);
      var sa := Send(stages[0].first, a);
      var sb := Send(stages[0].first, b);
      if sa.Done? && sb.Done? {
        ThroughAppend(stages[1..], sa.msgs, sb.msgs);
      }
    }
  }

  /** An empty batch passes every stage. */
  lemma {:induction false} ThroughNothing<M>(stages: seq<Stage<M>>)
    ensures Through(stages, []) == Done([])
  {
    if stages != [] {
      ThroughNothing(stages[1..]);
    }
  }

  /**
   * Pulling message by message gives what running the whole producer
   * output through each stage in turn gives: the pull raises exactly when
   * the producer raises or some stage raises on some message, and otherwise
   * yields the stage-by-stage result.
   */
  lemma {:induction false} PullIsStageByStage<M>(src: seq<Out<M>>, stages: seq<Stage<M>>)
    ensures !Pull(src, stages).raised <==> NoRaise(src) && Through(stages, SourceMsgs(src)).Done?
    ensures !Pull(src, stages).raised ==> Through(stages, SourceMsgs(src)) == Done(Pull(src, stages).out)
  {
    if src == [] {
      ThroughNothing(stages);
    } else {
      if !src[0].Raise? {
        PullIsStageByStage(src[1..], stages);
        ThroughAppend(stages, AllMsgs(src[0]), SourceMsgs(src[1..]));
        assert NoRaise(src) <==> NoRaise(src[1..]) by {
          assert forall i :: 1 <= i < |src| ==> src[1..][i - 1] == src[i];
        }
      }
    }
  }

  lemma {:induction false} ThroughConcatStages<M>(s1: seq<Stage<M>>, s2: seq<Stage<M>>, msgs: seq<M>)
    ensures Through(s1 + s2, msgs) == (match Through(s1, msgs) case Failed => Failed case Done(x) => Through(s2, x))
  {
    if s1 == [] {
      assert s1 + s2 == s2;
    } else {
      assert (s1 + s2)[0] == s1[0];
      assert (s1 + s2)[1..] == s1[1..] + s2;
      var sent := Send(s1[0].first, msgs);
      if sent.Done? {
        ThroughConcatStages(s1[1..], s2, sent.msgs);
      }
    }
  }

  lemma SourceMsgsOfValues<M>(ms: seq<M>)
    ensures SourceMsgs(Values(ms)) == ms && NoRaise(Values(ms))
  {
    if ms != [] {
      assert Values(ms)[1..] == Values(ms[1..]);
      SourceMsgsOfValues(ms[1..]);
      assert ms == [ms[0]] + ms[1..];
    }
  }

  /**
   * Feeding the messages pulled from one pipeline into a second pipeline
   * gives what one pipeline with the stages of both gives, when that does
   * not raise.
   */
  lemma PullChain<M>(src: seq<Out<M>>, s1: seq<Stage<M>>, s2: seq<Stage<M>>)
    requires !Pull(src, s1 + s2).raised
    ensures Pull(AsSource(Pull(src, s1)), s2) == Pull(src, s1 + s2)
  {
    PullIsStageByStage(src, s1 + s2);
    ThroughConcatStages(s1, s2, SourceMsgs(src));
    PullIsStageByStage(src, s1);
    var first := Pull(src, s1);
    assert AsSource(first) == Values(first.out);
    SourceMsgsOfValues(first.out);
    PullIsStageByStage(AsSource(first), s2);
  }

  /** What the messages of one part of the producer's output yield, followed by the rest. */
  lemma {:induction false} PullAppend<M>(a: seq<Out<M>>, b: seq<Out<M>>, stages: seq<Stage<M>>)
    requires !Pull(a, stages).raised
    ensures Pull(a + b, stages) == PullResult(Pull(a, stages).out + Pull(b, stages).out, Pull(b, stages).raised)
  {
    if a == [] {
      assert a + b == b;
    } else {
      assert (a + b)[0] == a[0];
      assert (a + b)[1..] == a[1..] + b;
      var ms := Through(stages, AllMsgs(a[0]));
      assert !a[0].Raise? && ms.Done?;
      PullAppend(a[1..], b, stages);
      var rest, both := Pull(a[1..], stages), Pull(a[1..] + b, stages);
      assert Pull(a, stages) == PullResult(ms.msgs + rest.out, rest.raised);
      assert Pull(a + b, stages) == PullResult(ms.msgs + both.out, both.raised);
      assert ms.msgs + (rest.out + Pull(b, stages).out) == ms.msgs + rest.out + Pull(b, stages).out;
    }
  }

  /**
   * A raise while handling producer answer `k` (by the producer itself or
   * by a stage) ends the pull with exactly the messages that the answers
   * before it yielded.
   */
  lemma RaiseKeepsCompletedPrefix<M>(src: seq<Out<M>>, stages: seq<Stage<M>>, k: nat)
    requires k < |src| && !Pull(src[..k], stages).raised
    requires src[k].Raise? || Through(stages, AllMsgs(src[k])).Failed?
    ensures Pull(src, stages) == PullResult(Pull(src[..k], stages).out, true)
  {
    assert src == src[..k] + src[k..];
    PullAppend(src[..k], src[k..], stages);
    assert src[k..][0] == src[k];
  }

  /*** Bubbles, multiples and decorators ***/

  /** The batch a worker that never raises turns `msgs` into: each message's answer, in order. */
  function Expand<M>(w: Worker<M>, msgs: seq<M>): seq<M>
    requires forall i :: 0 <= i < |msgs| ==> !w(msgs[i]).Raise?
  {
    if msgs == [] then [] else AllMsgs(w(msgs[0])) + Expand(w, msgs[1..])
  }

  lemma {:induction false} SendExpands<M>(w: Worker<M>, msgs: seq<M>)
    requires forall i :: 0 <= i < |msgs| ==> !w(msgs[i]).Raise?
    ensures Send(w, msgs) == Done(Expand(w, msgs))
  {
    if msgs != [] {
      assert forall i :: 1 <= i < |msgs| ==> msgs[1..][i - 1] == msgs[i];
      SendExpands(w, msgs[1..]);
    }
  }

  /** Pulling a plain list of messages through one worker that never raises yields its expansion. */
  lemma {:induction false} PullOneStage<M>(msgs: seq<M>, st: Stage<M>)
    requires forall i :: 0 <= i < |msgs| ==> !st.first(msgs[i]).Raise?
    ensures Pull(Values(msgs), [st]) == PullResult(Expand(st.first, msgs), false)
  {
    if msgs != [] {
      assert Values(msgs)[1..] == Values(msgs[1..]);
      PullOneStage(msgs[1..], st);
      var first := AllMsgs(st.first(msgs[0]));
      assert Send(st.first, [msgs[0]]) == Done(first + []);
      assert Through([st], [msgs[0]]) == Through([st][1..], first) == Done(first);
    }
  }

  /** The messages of `msgs` that `drop` does not hold for, each mapped by `f`, in order. */
  function MapExcept<M>(f: M -> M, drop: M -> bool, msgs: seq<M>): (r: seq<M>)
    ensures |r| <= |msgs|
  {
    if msgs == [] then []
    else (if drop(msgs[0]) then [] else [f(msgs[0])]) + MapExcept(f, drop, msgs[1..])
  }

  /**
   * A worker that bubbles on the messages `drop` holds for and otherwise
   * answers `f(m)` passes on every other message, transformed, in order:
   * nothing downstream sees a bubbled one.
   */
  lemma {:induction false} BubbleDropsMessage<M>(f: M -> M, drop: M -> bool, msgs: seq<M>)
    ensures Send((m: M) => if drop(m) then Bubble else Value(f(m)), msgs) == Done(MapExcept(f, drop, msgs))
  {
    if msgs != [] {
      BubbleDropsMessage(f, drop, msgs[1..]);
    }
  }

  /** A worker answering each message with a multiple yields the multiples' messages back to back. */
  lemma {:induction false} MultipleExpandsInOrder<M>(g: M -> seq<M>, msgs: seq<M>)
    ensures Send((m: M) => Multiple(g(m)), msgs) == Done(FlatMap(g, msgs))
  {
    if msgs != [] {
      MultipleExpandsInOrder(g, msgs[1..]);
    }
  }

  function FlatMap<M>(g: M -> seq<M>, msgs: seq<M>): seq<M> {
    if msgs == [] then [] else g(msgs[0]) + FlatMap(g, msgs[1..])
  }

  function Map<M>(f: M -> M, msgs: seq<M>): (r: seq<M>)
    ensures |r| == |msgs| && forall i :: 0 <= i < |msgs| ==> r[i] == f(msgs[i])
  {
    seq(|msgs|, i requires 0 <= i < |msgs| => f(msgs[i]))
  }

  /** A pipeline whose stage is a decorated function maps every produced message through it. */
  lemma {:induction false} DecoratedStageMaps<A, M>(f: (A, M) -> M, n: A, msgs: seq<M>)
    ensures Pull(Values(msgs), [Stage(StageOf((a: A, m: M) => Value(f(a, m)), n), [])])
         == PullResult(Map(m => f(n, m), msgs), false)
  {
    if msgs != [] {
      assert Values(msgs)[1..] == Values(msgs[1..]);
      DecoratedStageMaps(f, n, msgs[1..]);
      var stages := [Stage(StageOf((a: A, m: M) => Value(f(a, m)), n), [])];
      assert Send(stages[0].first, [msgs[0]]) == Done([f(n, msgs[0])] + []);
      assert Through(stages, [msgs[0]]) == Through(stages[1..], [f(n, msgs[0])]) == Done([f(n, msgs[0])]);
      assert Map(m => f(n, m), msgs) == [f(n, msgs[0])] + Map(m => f(n, m), msgs[1..]);
    }
  }

  /** A mutator stage forwards every message, changed, in production order. */
  lemma {:induction false} MutatorStageForwards<A, M>(mutate: (A, M) -> M, n: A, msgs: seq<M>)
    ensures Pull(Values(msgs), [Stage(MutatorStageOf(mutate, n), [])]) == PullResult(Map(m => mutate(n, m), msgs), false)
  {
    if msgs != [] {
      assert Values(msgs)[1..] == Values(msgs[1..]);
      MutatorStageForwards(mutate, n, msgs[1..]);
      var stages := [Stage(MutatorStageOf(mutate, n), [])];
      assert Send(stages[0].first, [msgs[0]]) == Done([mutate(n, msgs[0])] + []);
      assert Through(stages, [msgs[0]]) == Through(stages[1..], [mutate(n, msgs[0])]) == Done([mutate(n, msgs[0])]);
      assert Map(m => mutate(n, m), msgs) == [mutate(n, msgs[0])] + Map(m => mutate(n, m), msgs[1..]);
    }
  }

  /** A run whose consumer never raises receives exactly what the pull yields. */
  lemma {:induction false} RunCollectsPull<M>(src: seq<Out<M>>, stages: seq<Stage<M>>)
    ensures RunSequential(src, stages, (m: M) => true) == Pull(src, stages)
  {
    if src != [] && !src[0].Raise? && Through(stages, AllMsgs(src[0])).Done? {
      RunCollectsPull(src[1..], stages);
    }
  }

  /**
   * Whatever the consumer does, it receives the pipeline's messages in
   * order: what it collects is a prefix of what the pull yields, and all of
   * it when the consumer never raises.
   */
  lemma {:induction false} RunCollectsPrefix<M>(src: seq<Out<M>>, stages: seq<Stage<M>>, accepts: M -> bool)
    ensures RunSequential(src, stages, accepts).out <= Pull(src, stages).out
    ensures !RunSequential(src, stages, accepts).raised ==> RunSequential(src, stages, accepts) == Pull(src, stages)
  {
    if src != [] && !src[0].Raise? && Through(stages, AllMsgs(src[0])).Done? {
      var ms := Through(stages, AllMsgs(src[0])).msgs;
      var fed := Feed(ms, accepts);
      RunCollectsPrefix(src[1..], stages, accepts);
      if fed.raised {
        assert fed.out <= ms;
        assert ms <= Pull(src, stages).out;
      }
    }
  }
}
