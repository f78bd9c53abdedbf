/**
 * The pipelines of the library's own examples, run sequentially: a
 * producer of 0..4, a doubling worker, and variants that raise, bubble or
 * answer with several messages.
 */
module PipelineExamples {
  import opened Pipeline

  /** The producer: the numbers below `n`, in order. */
  function Produce(n: nat): (src: seq<Out<int>>)
    ensures |src| == n && forall i :: 0 <= i < n ==> src[i] == Value(i)
  {
    seq(n, i requires 0 <= i < n => Value(i))
  }

  /** The producer that raises after its last number. */
  function ProduceThenRaise(n: nat): seq<Out<int>> {
    Produce(n) + [Raise]
  }

  function Double(i: int): Out<int> {
    Value(2 * i)
  }

  /** Doubles, but raises when sent `num`. */
  function DoubleOrRaise(num: int, i: int): Out<int> {
    if i == num then Raise else Value(2 * i)
  }

  /** Doubles, but bubbles when sent `num`. */
  function DoubleOrBubble(num: int, i: int): Out<int> {
    if i == num then Bubble else Value(2 * i)
  }

  function PlusMinus(i: int): Out<int> {
    Multiple([i, -i])
  }

  function Work(): Stage<int> {
    Stage(Double, [])
  }

  lemma ProduceFive()
    ensures Produce(5) == [Value(0), Value(1), Value(2), Value(3), Value(4)]
    ensures Produce(5) == Values([0, 1, 2, 3, 4])
  {
  }

  /** Pulling producer and doubling worker yields every message doubled, in order. */
  lemma SimplePull()
    ensures Pull(Produce(5), [Work()]) == PullResult([0, 2, 4, 6, 8], false)
  {
    ProduceFive();
    PullOneStage([0, 1, 2, 3, 4], Work());
  }

  /** Producer, doubling worker, consumer: every message arrives doubled and in order. */
  lemma SimpleRun()
    ensures RunSequential(Produce(5), [Work()], (m: int) => true) == PullResult([0, 2, 4, 6, 8], false)
  {
    SimplePull();
    RunCollectsPull(Produce(5), [Work()]);
  }

  /** Pulling one pipeline into another doubles twice. */
  lemma PullChainExample()
    ensures Pull(AsSource(Pull(Produce(5), [Work()])), [Work()]) == PullResult([0, 4, 8, 12, 16], false)
  {
    SimplePull();
    assert AsSource(PullResult([0, 2, 4, 6, 8], false)) == Values([0, 2, 4, 6, 8]);
    PullOneStage([0, 2, 4, 6, 8], Work());
  }

  /** A stage of two parallel workers behaves, when run sequentially, like its first worker. */
  lemma ParallelStageExample()
    ensures Pull(Produce(5), [Stage(Double, [Double])]) == PullResult([0, 2, 4, 6, 8], false)
  {
    ProduceFive();
    PullOneStage([0, 1, 2, 3, 4], Stage(Double, [Double]));
  }

  /** The producer raising after its last message: the consumer has received them all, and the run raises. */
  lemma ProducerRaises()
    ensures RunSequential(ProduceThenRaise(5), [Work()], (m: int) => true) == PullResult([0, 2, 4, 6, 8], true)
  {
    ProduceFive();
    RunCollectsPull(ProduceThenRaise(5), [Work()]);
    SimplePull();
    PullAppend(Produce(5), [Raise], [Work()]);
  }

  /** The worker raising on 3: the pull yields the three messages completed before it, then raises. */
  lemma WorkerRaises()
    ensures Pull(Produce(5), [Stage(i => DoubleOrRaise(3, i), [])]) == PullResult([0, 2, 4], true)
  {
    ProduceFive();
  }

  /** The consumer raising on 4: it has collected the messages before it. */
  lemma ConsumerRaises()
    ensures RunSequential(Produce(5), [Work()], (m: int) => m != 4) == PullResult([0, 2], true)
  {
    ProduceFive();
  }

  /** The worker bubbling on 3: that message is dropped and the others keep their order. */
  lemma BubbleExample()
    ensures Pull(Produce(5), [Stage(i => DoubleOrBubble(3, i), [])]) == PullResult([0, 2, 4, 8], false)
  {
    ProduceFive();
  }

  /** A worker answering with a multiple: each message is followed by its negation. */
  lemma MultipleExample()
    ensures Pull(Produce(5), [Stage(PlusMinus, [])]) == PullResult([0, 0, 1, -1, 2, -2, 3, -3, 4, -4], false)
  {
    ProduceFive();
    PullOneStage([0, 1, 2, 3, 4], Stage(PlusMinus, []));
  }

  function Add(n: int, i: int): Out<int> {
    Value(i + n)
  }

  /** The decorated function `add` applied with `n` = 2. */
  lemma StageDecoratorExample()
    ensures Pull(Values([1, 2, 3]), [Stage(StageOf(Add, 2), [])]) == PullResult([3, 4, 5], false)
  {
    var w := StageOf(Add, 2);
    assert w(1) == Add(2, 1) == Value(3);
    assert w(2) == Add(2, 2) == Value(4);
    assert w(3) == Add(2, 3) == Value(5);
    assert Expand(w, [3]) == [5] + Expand(w, []);
    assert Expand(w, [2, 3]) == [4] + Expand(w, [3]) by { assert [2, 3][1..] == [3]; }
    assert Expand(w, [1, 2, 3]) == [3] + Expand(w, [2, 3]) by { assert [1, 2, 3][1..] == [2, 3]; }
    PullOneStage([1, 2, 3], Stage(w, []));
  }

  /** The decorated function sets `key` in the dictionary it is given. */
  function SetKey(key: string, item: map<string, bool>): map<string, bool> {
    item[key := true]
  }

  /** Every dictionary comes out with "x" set, whatever else it held. */
  lemma MutatorStageExample()
    ensures Pull(Values([map["x" := false], map["a" := false]]), [Stage(MutatorStageOf(SetKey, "x"), [])])
         == PullResult([map["x" := true], map["a" := false, "x" := true]], false)
  {
    var items := [map["x" := false], map["a" := false]];
    MutatorStageForwards(SetKey, "x", items);
    assert SetKey("x", items[0]) == map["x" := true];
    assert SetKey("x", items[1]) == map["a" := false, "x" := true];
  }
}
