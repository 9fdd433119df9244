/**
 StreamQueue of src/server_stream.h: one writer, one reader, a bounded text lane
 and a terminal lane. Each method holds the lock throughout, so an execution is
 a sequence of calls by the two threads in any order.
 */
module StreamQueues {
  import opened Wrappers
  import opened Bytes

  const CAPACITY := 64
  const BYTE_CAPACITY := 262144
  const MAX_TEXT := 8192

  datatype Reply = Reply(status: int, body: Word)

  datatype Queue = Queue(text: seq<Word>, bytes: nat, terminal: Option<Reply>)

  datatype Popped = Text(text: Word) | Terminal(reply: Reply) | Nothing

  const EMPTY := Queue([], 0, None)

  function Size(text: seq<Word>): nat {
    if text == [] then 0 else |text[0]| + Size(text[1..])
  }

  predicate HasRoom(q: Queue) {
    |q.text| + 3 <= CAPACITY && q.bytes + 3 * MAX_TEXT <= BYTE_CAPACITY
  }

  predicate Refuses(q: Queue, text: Word) {
    text != [] && (|text| > MAX_TEXT || |q.text| >= CAPACITY || q.bytes + |text| > BYTE_CAPACITY || q.terminal.Some?)
  }

  function Push(q: Queue, text: Word): Queue
    requires !Refuses(q, text)
  {
    if text == [] then q else q.(bytes := q.bytes + |text|, text := q.text + [text])
  }

  function Pop(q: Queue): (Queue, Popped) {
    if q.text != [] then (q.(text := q.text[1..], bytes := if q.bytes >= |q.text[0]| then q.bytes - |q.text[0]| else 0),
                          Text(q.text[0]))
    else if q.terminal.Some? then (q, Terminal(q.terminal.value))
    else (q, Nothing)
  }

  ghost predicate Valid(q: Queue) {
    && q.bytes == Size(q.text) <= BYTE_CAPACITY
    && |q.text| <= CAPACITY
    && forall i | 0 <= i < |q.text| :: q.text[i] != []
  }

  lemma {:induction false} SizeConcat(a: seq<Word>, b: seq<Word>)
    ensures Size(a + b) == Size(a) + Size(b)
    decreases |a|
  {
    if a == [] {
      assert a + b == b;
    } else {
      assert (a + b)[1..] == a[1..] + b;
      SizeConcat(a[1..], b);
    }
  }

  class StreamQueue {
    var text: seq<Word>
    var bytes: nat
    var terminal: Option<Reply>

    function Value(): Queue
      reads this
    {
      Queue(text, bytes, terminal)
    }

    constructor ()
      ensures Value() == EMPTY
    {
      text, bytes, terminal := [], 0, None;
    }

    method Room() returns (ok: bool)
      ensures ok == HasRoom(Value())
    {
      ok := |text| + 3 <= CAPACITY && bytes + 3 * MAX_TEXT <= BYTE_CAPACITY;
    }

    /** Throws, changing nothing, when a bound would be exceeded or the queue is finished. */
    method PushText(t: Word) returns (thrown: bool)
      modifies this
      ensures thrown == Refuses(old(Value()), t)
      ensures Value() == if thrown then old(Value()) else Push(old(Value()), t)
    {
      if t == [] {
        return false;
      }
      if |t| > MAX_TEXT || |text| >= CAPACITY || bytes + |t| > BYTE_CAPACITY || terminal.Some? {
        return true;
      }
      bytes := bytes + |t|;
      text := text + [t];
      return false;
    }

    method FinishWith(result: Reply)
      modifies this
      ensures Value() == old(Value()).(terminal := Some(result))
    {
      terminal := Some(result);
    }

    /** The result after the wait, whether it was notified or timed out. */
    method PopText() returns (popped: Popped)
      requires Valid(Value())
      modifies this
      ensures (Value(), popped) == Pop(old(Value()))
    {
      if text != [] {
        popped := Text(text[0]);
        bytes := bytes - |text[0]|;
        text := text[1..];
        return;
      }
      if terminal.Some? {
        return Terminal(terminal.value);
      }
      return Nothing;
    }
  }

  // ----- executions -----

  datatype Action = PushAction(text: Word) | FinishAction(reply: Reply) | PopAction

  /** The queue, what was pushed and what was popped, and whether a terminal reply was seen. */
  datatype Execution = Execution(q: Queue, pushed: seq<Word>, popped: seq<Word>, seen: Option<Reply>)

  function Step(e: Execution, a: Action): Execution {
    match a
    case PushAction(t) =>
      if t == [] || Refuses(e.q, t) then e else e.(q := Push(e.q, t), pushed := e.pushed + [t])
    case FinishAction(r) => e.(q := e.q.(terminal := Some(r)))
    case PopAction =>
      var (q, p) := Pop(e.q);
      match p
      case Text(t) => e.(q := q, popped := e.popped + [t])
      case Terminal(r) => e.(q := q, seen := Some(r))
      case Nothing => e.(q := q)
  }

  function Execute(e: Execution, actions: seq<Action>): Execution
    decreases |actions|
  {
    if actions == [] then e else Execute(Step(e, actions[0]), actions[1..])
  }

  ghost predicate Consistent(e: Execution) {
    && Valid(e.q)
    && e.popped + e.q.text == e.pushed
    && (e.seen.Some? ==> e.q.terminal.Some? && e.q.text == [])
  }

  lemma StepKeeps(e: Execution, a: Action)
    requires Consistent(e)
    ensures Consistent(Step(e, a))
  {
    match a
    case PushAction(t) =>
      SizeConcat(e.q.text, [t]);
      assert [t][1..] == [];
      assert e.popped + (e.q.text + [t]) == (e.popped + e.q.text) + [t];
    case FinishAction(_) =>
    case PopAction =>
      if e.q.text != [] {
        assert (e.popped + [e.q.text[0]]) + e.q.text[1..] == e.popped + e.q.text;
      }
  }

  lemma {:induction false} ExecutionKeeps(e: Execution, actions: seq<Action>)
    requires Consistent(e)
    ensures Consistent(Execute(e, actions))
    decreases |actions|
  {
    if actions != [] {
      StepKeeps(e, actions[0]);
      ExecutionKeeps(Step(e, actions[0]), actions[1..]);
    }
  }

  const START := Execution(EMPTY, [], [], None)

  /**
   From the empty queue, under any interleaving, the reader has popped a prefix of
   what was pushed, the bounds hold, and a terminal reply is seen only when
   everything pushed has been popped, after which nothing more can be pushed.
   */
  lemma ReaderSeesPrefix(actions: seq<Action>)
    ensures var f := Execute(START, actions);
            && f.popped <= f.pushed && |f.q.text| <= CAPACITY && f.q.bytes == Size(f.q.text) <= BYTE_CAPACITY
            && (f.seen.Some? ==> f.popped == f.pushed && forall t :: t != [] ==> Refuses(f.q, t))
  {
    ExecutionKeeps(START, actions);
  }

  // ----- the room check -----

  /** n more texts of the largest size would fit. */
  predicate Slack(q: Queue, n: nat) {
    |q.text| + n <= CAPACITY && q.bytes + n * MAX_TEXT <= BYTE_CAPACITY && q.terminal.None?
  }

  function Pushes(actions: seq<Action>): nat {
    if actions == [] then 0 else (if actions[0].PushAction? then 1 else 0) + Pushes(actions[1..])
  }

  predicate Modest(actions: seq<Action>) {
    forall i | 0 <= i < |actions| :: !actions[i].FinishAction? &&
        (actions[i].PushAction? ==> |actions[i].text| <= MAX_TEXT)
  }

  lemma {:induction false} NextPushFits(e: Execution, actions: seq<Action>, n: nat, text: Word)
    requires Valid(e.q) && Slack(e.q, n) && Modest(actions) && Pushes(actions) < n && |text| <= MAX_TEXT
    ensures !Refuses(Execute(e, actions).q, text)
    decreases |actions|
  {
    if actions != [] {
      var f := Step(e, actions[0]);
      SlackStep(e, actions[0], n);
      assert Modest(actions[1..]) by {
        assert forall i | 0 <= i < |actions[1..]| :: actions[1..][i] == actions[i + 1];
      }
      NextPushFits(f, actions[1..], if actions[0].PushAction? then n - 1 else n, text);
    }
  }

  lemma SlackStep(e: Execution, a: Action, n: nat)
    requires Valid(e.q) && Slack(e.q, n) && !a.FinishAction? && (a.PushAction? ==> |a.text| <= MAX_TEXT && n > 0)
    ensures Valid(Step(e, a).q) && Slack(Step(e, a).q, if a.PushAction? then n - 1 else n)
  {
    match a
    case PushAction(t) =>
      SizeConcat(e.q.text, [t]);
      assert [t][1..] == [];
    case PopAction =>
  }

  /**
   After room() and before the terminal reply, none of the next three pushes of
   at most 8192 bytes throws, whatever the reader pops in between.
   */
  lemma RoomCoversThreePushes(e: Execution, actions: seq<Action>, text: Word)
    requires Valid(e.q) && HasRoom(e.q) && e.q.terminal.None?
    requires Modest(actions) && Pushes(actions) < 3 && |text| <= MAX_TEXT
    ensures !Refuses(Execute(e, actions).q, text)
  {
    NextPushFits(e, actions, 3, text);
  }

  /** Room is exactly what three texts of the largest size need, and the empty queue has it. */
  lemma RoomIffThreeFit(q: Queue, t: Word)
    requires q.terminal.None? && |t| == MAX_TEXT
    ensures HasRoom(q) <==> !Refuses(q, t) && !Refuses(Push(q, t), t) && !Refuses(Push(Push(q, t), t), t)
    ensures HasRoom(EMPTY)
  {}

  // ----- the reader gets everything -----

  function Pops(n: nat): (actions: seq<Action>)
    ensures |actions| == n
  {
    if n == 0 then [] else [PopAction] + Pops(n - 1)
  }

  /** After the terminal reply, one pop more than there are texts hands out all of them and then the reply. */
  lemma {:induction false} DrainEnds(e: Execution, reply: Reply)
    requires Valid(e.q) && e.q.terminal == Some(reply)
    ensures var f := Execute(e, Pops(|e.q.text| + 1));
            f.popped == e.popped + e.q.text && f.seen == Some(reply) && f.q.text == [] && f.pushed == e.pushed
    decreases |e.q.text|
  {
    var f := Step(e, PopAction);
    var pops := Pops(|e.q.text| + 1);
    assert pops[0] == PopAction && pops[1..] == Pops(|e.q.text|);
    if e.q.text == [] {
      assert Execute(f, pops[1..]) == f;
    } else {
      assert forall i | 0 <= i < |f.q.text| :: f.q.text[i] == e.q.text[i + 1];
      DrainEnds(f, reply);
      assert (e.popped + [e.q.text[0]]) + e.q.text[1..] == e.popped + e.q.text;
    }
  }

  /** A finished stream reaches its reader whole, whatever went before. */
  lemma FinishedStreamIsRead(actions: seq<Action>, reply: Reply)
    ensures var e := Step(Execute(START, actions), FinishAction(reply));
            var f := Execute(e, Pops(|e.q.text| + 1));
            f.popped == e.pushed == f.pushed && f.seen == Some(reply)
  {
    ExecutionKeeps(START, actions);
    var e := Step(Execute(START, actions), FinishAction(reply));
    DrainEnds(e, reply);
  }
}
