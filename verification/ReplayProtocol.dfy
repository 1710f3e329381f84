/** Workers, transfer queue, poll thread and sampler of one partition, in every interleaving
    (verl/verl/trainer/main_ppo_sync.py).  A prompt's uid is registered once and is not an output
    key; listing the queue takes a consistent snapshot; a batch put is atomic. */
module ReplayProtocol {
  import opened Prelude
  import opened ReplayBuffer
  import opened SessionScores

  /** A registered prompt: its step, its number of sessions, the sessions that have ended, and the
      status its worker has put in the end. */
  datatype Prompt = Prompt(step: nat, sessions: nat, done: set<nat>, ended: Option<Status>)

  /** Which output a key of the queue is. */
  datatype Output = Output(uid: string, session: nat, index: nat)

  /** `puts` records every output that has ever been put. */
  datatype State = State(prompts: map<string, Prompt>, puts: map<string, Output>,
                         queue: Partition, snapshot: Option<Partition>, buffer: Partition)

  datatype Step =
    | Register(sessions: map<string, nat>, step: nat)
    | EndSession(uid: string, session: nat, lengths: seq<(nat, nat)>)
    | PutFinished(uid: string)
    | PutFailure(uid: string)
    | TakeSnapshot
    | AddSnapshot

  function Init(): State {
    State(map[], map[], map[], None, map[])
  }

  ghost predicate IsOutputKey(key: string) {
    exists uid: string, s: nat, i: nat :: key == OutputKey(uid, s, i)
  }

  /** A session ends at most once, also after its prompt has failed; a prompt finishes when all its
      sessions have ended, and may fail at any time before that. */
  ghost predicate Enabled(st: State, e: Step) {
    match e
    case Register(sessions, step) => forall uid :: uid in sessions ==> uid !in st.prompts && !IsOutputKey(uid)
    case EndSession(uid, s, lengths) =>
      uid in st.prompts && s < st.prompts[uid].sessions && s !in st.prompts[uid].done
    case PutFinished(uid) =>
      uid in st.prompts && st.prompts[uid].ended.None? && AllDone(st.prompts[uid])
    case PutFailure(uid) => uid in st.prompts && st.prompts[uid].ended.None?
    case TakeSnapshot => st.snapshot.None?
    case AddSnapshot => st.snapshot.Some?
  }

  predicate AllDone(p: Prompt) {
    forall s :: 0 <= s < p.sessions ==> s in p.done
  }

  /** The running marks of `AgentLoopManagerTQ.generate_sequences`. */
  function RunningItems(sessions: map<string, nat>, step: nat): Partition {
    map uid | uid in sessions :: Tags(Some(step), Some(Running), None)
  }

  function Registered(sessions: map<string, nat>, step: nat): map<string, Prompt> {
    map uid | uid in sessions :: Prompt(step, sessions[uid], {}, None)
  }

  /** The outputs of one batch put, by key. */
  function SessionOutputs(uid: string, s: nat, n: nat): (r: map<string, Output>)
    ensures forall i: nat :: i < n ==> OutputKey(uid, s, i) in r
    ensures forall key :: key in r ==> r[key].uid == uid && r[key].session == s && r[key].index < n
                                       && key == OutputKey(uid, s, r[key].index)
  {
    if n == 0 then map[] else SessionOutputs(uid, s, n - 1)[OutputKey(uid, s, n - 1) := Output(uid, s, n - 1)]
  }

  function OutputItems(outputs: map<string, Output>, step: nat, lengths: seq<(nat, nat)>): Partition {
    map key | key in outputs ::
      Tags(Some(step), Some(Success),
           if outputs[key].index < |lengths| then Some(lengths[outputs[key].index]) else None)
  }

  ghost function Apply(st: State, e: Step): State
    requires Enabled(st, e)
  {
    match e
    case Register(sessions, step) =>
      st.(prompts := st.prompts + Registered(sessions, step),
          buffer := AddItems(st.buffer, RunningItems(sessions, step)))
    case EndSession(uid, s, lengths) => PutOutputs(st, uid, s, lengths)
    case PutFinished(uid) => End(st, uid, Finished)
    case PutFailure(uid) => End(st, uid, Failure)
    case TakeSnapshot => st.(snapshot := Some(st.queue))
    case AddSnapshot => st.(snapshot := None, buffer := AddItems(st.buffer, st.snapshot.value))
  }

  function PutOutputs(st: State, uid: string, s: nat, lengths: seq<(nat, nat)>): State
    requires uid in st.prompts
  {
    var p, outputs := st.prompts[uid], SessionOutputs(uid, s, |lengths|);
    st.(prompts := st.prompts[uid := p.(done := p.done + {s})], puts := st.puts + outputs,
        queue := AddItems(st.queue, OutputItems(outputs, p.step, lengths)))
  }

  function End(st: State, uid: string, status: Status): State
    requires uid in st.prompts
  {
    st.(prompts := st.prompts[uid := st.prompts[uid].(ended := Some(status))],
        queue := AddItems(st.queue, map[uid := Tags(None, Some(status), None)]))
  }

  // --------------------------------------------------------------- invariant

  ghost predicate GoodPrompt(uid: string, p: Prompt) {
    && !IsOutputKey(uid)
    && (p.ended == Some(Finished) ==> AllDone(p))
    && (p.ended == None || p.ended == Some(Finished) || p.ended == Some(Failure))
  }

  ghost predicate GoodPrompts(prompts: map<string, Prompt>) {
    forall uid :: uid in prompts ==> GoodPrompt(uid, prompts[uid])
  }

  ghost predicate GoodPuts(prompts: map<string, Prompt>, puts: map<string, Output>) {
    forall key :: key in puts ==>
                    && key == OutputKey(puts[key].uid, puts[key].session, puts[key].index)
                    && puts[key].uid in prompts && puts[key].session in prompts[puts[key].uid].done
  }

  predicate OutputEntry(prompts: map<string, Prompt>, puts: map<string, Output>, key: string, tags: Tags) {
    key in puts && puts[key].uid in prompts
    && tags.globalSteps == Some(prompts[puts[key].uid].step) && tags.status == Some(Success)
  }

  /** What the queue or a snapshot may say about a key. */
  predicate QueueEntry(prompts: map<string, Prompt>, puts: map<string, Output>, key: string, tags: Tags) {
    || (key in prompts && prompts[key].ended.Some? && tags == Tags(None, prompts[key].ended, None))
    || OutputEntry(prompts, puts, key, tags)
  }

  /** What the buffer may say about a key. */
  predicate BufferEntry(prompts: map<string, Prompt>, puts: map<string, Output>, key: string, tags: Tags) {
    || (key in prompts && tags.globalSteps == Some(prompts[key].step)
        && (tags.status == Some(Running) || (prompts[key].ended.Some? && tags.status == prompts[key].ended)))
    || OutputEntry(prompts, puts, key, tags)
  }

  /** A prompt that is finished in p has all its outputs in p. */
  predicate FinishedAreWhole(p: Partition, puts: map<string, Output>) {
    forall key :: key in puts && puts[key].uid in p && p[puts[key].uid].status == Some(Finished) ==> key in p
  }

  ghost predicate GoodView(p: Partition, prompts: map<string, Prompt>, puts: map<string, Output>) {
    (forall key :: key in p ==> QueueEntry(prompts, puts, key, p[key])) && FinishedAreWhole(p, puts)
  }

  ghost predicate GoodQueue(p: Partition, prompts: map<string, Prompt>, puts: map<string, Output>) {
    && (forall key :: key in p ==> QueueEntry(prompts, puts, key, p[key]))
    && (forall key :: key in puts ==> key in p)
    && (forall uid :: uid in prompts && prompts[uid].ended.Some? ==> uid in p)
  }

  ghost predicate GoodBuffer(p: Partition, prompts: map<string, Prompt>, puts: map<string, Output>) {
    && (forall key :: key in p ==> BufferEntry(prompts, puts, key, p[key]))
    && (forall uid :: uid in prompts ==> uid in p)
    && FinishedAreWhole(p, puts)
  }

  ghost predicate Inv(st: State) {
    && GoodPrompts(st.prompts) && GoodPuts(st.prompts, st.puts) && GoodQueue(st.queue, st.prompts, st.puts)
    && (st.snapshot.Some? ==> GoodView(st.snapshot.value, st.prompts, st.puts))
    && GoodBuffer(st.buffer, st.prompts, st.puts)
  }

  // -------------------------------------------------------- what steps preserve

  lemma OutputsAreNotPrompts(prompts: map<string, Prompt>, puts: map<string, Output>)
    requires GoodPrompts(prompts) && GoodPuts(prompts, puts)
    ensures forall key :: key in puts ==> key !in prompts
  {
    forall key | key in puts ensures IsOutputKey(key) {
      assert key == OutputKey(puts[key].uid, puts[key].session, puts[key].index);
    }
    forall uid | uid in prompts ensures !IsOutputKey(uid) {
      assert GoodPrompt(uid, prompts[uid]);
    }
  }

  /** More prompts, more sessions ended, more outputs; an ending is final, and nothing is put for a
      prompt that had finished. */
  ghost predicate Grow(st: State, st': State) {
    && (forall uid :: uid in st.prompts ==>
          && uid in st'.prompts && st'.prompts[uid].step == st.prompts[uid].step
          && (st.prompts[uid].ended.Some? ==> st'.prompts[uid].ended == st.prompts[uid].ended))
    && (forall key :: key in st.puts ==> key in st'.puts && st'.puts[key] == st.puts[key])
    && (forall key :: key in st'.puts && key !in st.puts ==>
          st'.puts[key].uid in st.prompts && st.prompts[st'.puts[key].uid].ended != Some(Finished))
  }

  lemma EntriesSurvive(st: State, st': State, key: string, tags: Tags)
    requires Grow(st, st')
    ensures QueueEntry(st.prompts, st.puts, key, tags) ==> QueueEntry(st'.prompts, st'.puts, key, tags)
    ensures BufferEntry(st.prompts, st.puts, key, tags) ==> BufferEntry(st'.prompts, st'.puts, key, tags)
  {
  }

  /** If p said that a prompt is finished only of finished ones, new outputs do not break p. */
  lemma WholeSurvives(p: Partition, st: State, st': State)
    requires Grow(st, st') && FinishedAreWhole(p, st.puts)
    requires forall uid :: uid in st.prompts && uid in p && p[uid].status == Some(Finished) ==>
                             st.prompts[uid].ended == Some(Finished)
    ensures FinishedAreWhole(p, st'.puts)
  {
  }

  lemma ViewSurvives(p: Partition, st: State, st': State)
    requires GoodPrompts(st.prompts) && GoodPuts(st.prompts, st.puts) && Grow(st, st')
      && GoodView(p, st.prompts, st.puts)
    ensures GoodView(p, st'.prompts, st'.puts)
  {
    OutputsAreNotPrompts(st.prompts, st.puts);
    WholeSurvives(p, st, st');
    forall key | key in p ensures QueueEntry(st'.prompts, st'.puts, key, p[key]) {
      EntriesSurvive(st, st', key, p[key]);
    }
  }

  lemma BufferSurvives(p: Partition, st: State, st': State)
    requires GoodPrompts(st.prompts) && GoodPuts(st.prompts, st.puts) && Grow(st, st')
      && GoodBuffer(p, st.prompts, st.puts)
    requires st'.prompts.Keys == st.prompts.Keys
    ensures GoodBuffer(p, st'.prompts, st'.puts)
  {
    OutputsAreNotPrompts(st.prompts, st.puts);
    WholeSurvives(p, st, st');
    forall key | key in p ensures BufferEntry(st'.prompts, st'.puts, key, p[key]) {
      EntriesSurvive(st, st', key, p[key]);
    }
  }

  lemma ViewsSurvive(st: State, st': State)
    requires Inv(st) && Grow(st, st') && st'.prompts.Keys == st.prompts.Keys
    requires st'.snapshot == st.snapshot && st'.buffer == st.buffer
    ensures st'.snapshot.Some? ==> GoodView(st'.snapshot.value, st'.prompts, st'.puts)
    ensures GoodBuffer(st'.buffer, st'.prompts, st'.puts)
  {
    if st.snapshot.Some? {
      ViewSurvives(st.snapshot.value, st, st');
    }
    BufferSurvives(st.buffer, st, st');
  }

  /** The queue after items of a session or of an ending have been merged in. */
  lemma QueueGrows(st: State, st': State, items: Partition)
    requires Grow(st, st') && GoodQueue(st.queue, st.prompts, st.puts) && st'.queue == AddItems(st.queue, items)
    requires forall key :: key in items ==>
               QueueEntry(st'.prompts, st'.puts, key, Update(TagsOf(st.queue, key), items[key]))
    requires forall key :: key in st'.puts && key !in st.puts ==> key in items
    requires forall uid :: uid in st'.prompts && st'.prompts[uid].ended.Some? ==>
                             uid in items || (uid in st.prompts && st.prompts[uid].ended.Some?)
    ensures GoodQueue(st'.queue, st'.prompts, st'.puts)
  {
    forall key | key in st'.queue ensures QueueEntry(st'.prompts, st'.puts, key, st'.queue[key]) {
      if key !in items {
        EntriesSurvive(st, st', key, st.queue[key]);
        assert st'.queue[key] == st.queue[key];
      }
    }
  }

  // ------------------------------------------------------------------- steps

  lemma RegisterBuffer(st: State, sessions: map<string, nat>, step: nat, st': State)
    requires GoodBuffer(st.buffer, st.prompts, st.puts) && GoodPuts(st.prompts, st.puts) && Grow(st, st')
    requires st'.prompts == st.prompts + Registered(sessions, step) && st'.puts == st.puts
    requires st'.buffer == AddItems(st.buffer, RunningItems(sessions, step))
    requires forall uid :: uid in sessions ==> uid !in st.buffer
    ensures GoodBuffer(st'.buffer, st'.prompts, st'.puts)
  {
    var b, b' := st.buffer, st'.buffer;
    forall key | key in b' && key !in sessions ensures key in b && b'[key] == b[key] {
      assert Update(b[key], NO_TAGS) == b[key];
    }
    forall key | key in b' ensures BufferEntry(st'.prompts, st'.puts, key, b'[key]) {
      if key !in sessions {
        EntriesSurvive(st, st', key, b[key]);
      }
    }
    forall key | key in st'.puts && st'.puts[key].uid in b' && b'[st'.puts[key].uid].status == Some(Finished)
      ensures key in b'
    {
      assert st'.puts[key].uid !in sessions;
    }
  }

  lemma RegisteredAreNew(st: State, sessions: map<string, nat>, step: nat)
    requires Inv(st) && Enabled(st, Register(sessions, step))
    ensures forall uid :: uid in sessions ==> uid !in st.buffer && uid !in st.puts
  {
    forall uid | uid in sessions ensures uid !in st.buffer && uid !in st.puts {
      assert uid in st.puts ==> uid == OutputKey(st.puts[uid].uid, st.puts[uid].session, st.puts[uid].index);
      assert uid in st.buffer ==> BufferEntry(st.prompts, st.puts, uid, st.buffer[uid]);
    }
  }

  lemma RegisterGrows(st: State, sessions: map<string, nat>, step: nat, st': State)
    requires GoodPrompts(st.prompts) && GoodPuts(st.prompts, st.puts) && Enabled(st, Register(sessions, step))
    requires st'.prompts == st.prompts + Registered(sessions, step) && st'.puts == st.puts
    ensures Grow(st, st') && GoodPrompts(st'.prompts) && GoodPuts(st'.prompts, st'.puts)
  {
    forall uid | uid in st'.prompts ensures GoodPrompt(uid, st'.prompts[uid]) {
      assert uid in st.prompts ==> GoodPrompt(uid, st.prompts[uid]);
    }
  }

  lemma RegisterQueue(st: State, sessions: map<string, nat>, step: nat, st': State)
    requires GoodQueue(st.queue, st.prompts, st.puts) && Grow(st, st')
    requires st'.prompts == st.prompts + Registered(sessions, step) && st'.puts == st.puts && st'.queue == st.queue
    requires forall uid :: uid in sessions ==> uid !in st.prompts
    ensures GoodQueue(st'.queue, st'.prompts, st'.puts)
  {
    forall key | key in st.queue ensures QueueEntry(st'.prompts, st'.puts, key, st.queue[key]) {
      EntriesSurvive(st, st', key, st.queue[key]);
    }
  }

  lemma RegisterKeeps(st: State, sessions: map<string, nat>, step: nat)
    requires Inv(st) && Enabled(st, Register(sessions, step))
    ensures Inv(Apply(st, Register(sessions, step)))
  {
    var st' := Apply(st, Register(sessions, step));
    RegisterGrows(st, sessions, step, st');
    RegisterQueue(st, sessions, step, st');
    if st.snapshot.Some? {
      ViewSurvives(st.snapshot.value, st, st');
    }
    RegisteredAreNew(st, sessions, step);
    RegisterBuffer(st, sessions, step, st');
  }

  /** What is put for a session is new. */
  lemma SessionOutputsAreNew(st: State, uid: string, s: nat, n: nat)
    requires GoodPrompts(st.prompts) && GoodPuts(st.prompts, st.puts) && GoodQueue(st.queue, st.prompts, st.puts)
    requires uid in st.prompts && s !in st.prompts[uid].done
    ensures forall key :: key in SessionOutputs(uid, s, n) ==> key !in st.puts && key !in st.prompts && key !in st.queue
  {
    OutputsAreNotPrompts(st.prompts, st.puts);
    var outputs := SessionOutputs(uid, s, n);
    forall key | key in outputs ensures key !in st.puts && key !in st.prompts && key !in st.queue {
      var o := if key in st.puts then st.puts[key] else Output("", 0, 0);
      OutputKeysAreDistinct(uid, s, outputs[key].index, o.uid, o.session, o.index);
      assert IsOutputKey(key);
      assert key in st.prompts ==> GoodPrompt(key, st.prompts[key]);
      assert key in st.queue ==> QueueEntry(st.prompts, st.puts, key, st.queue[key]);
    }
  }

  lemma PutOutputsGrows(st: State, uid: string, s: nat, lengths: seq<(nat, nat)>, st': State)
    requires Inv(st) && Enabled(st, EndSession(uid, s, lengths)) && st' == PutOutputs(st, uid, s, lengths)
    ensures Grow(st, st')
  {
    SessionOutputsAreNew(st, uid, s, |lengths|);
    assert GoodPrompt(uid, st.prompts[uid]);
  }

  lemma PutOutputsPrompts(st: State, uid: string, s: nat, lengths: seq<(nat, nat)>, st': State)
    requires GoodPrompts(st.prompts) && GoodPuts(st.prompts, st.puts) && Enabled(st, EndSession(uid, s, lengths))
    requires st' == PutOutputs(st, uid, s, lengths)
    ensures GoodPrompts(st'.prompts) && GoodPuts(st'.prompts, st'.puts)
  {
    forall x | x in st'.prompts ensures GoodPrompt(x, st'.prompts[x]) {
      assert GoodPrompt(x, st.prompts[x]);
    }
  }

  /** The items that a session puts. */
  function PutItems(st: State, uid: string, s: nat, lengths: seq<(nat, nat)>): Partition
    requires uid in st.prompts
  {
    OutputItems(SessionOutputs(uid, s, |lengths|), st.prompts[uid].step, lengths)
  }

  lemma PutOutputsQueue(st: State, uid: string, s: nat, lengths: seq<(nat, nat)>, st': State)
    requires GoodPrompts(st.prompts) && GoodPuts(st.prompts, st.puts) && GoodQueue(st.queue, st.prompts, st.puts)
    requires Enabled(st, EndSession(uid, s, lengths)) && st' == PutOutputs(st, uid, s, lengths) && Grow(st, st')
    ensures GoodQueue(st'.queue, st'.prompts, st'.puts)
  {
    SessionOutputsAreNew(st, uid, s, |lengths|);
    PutItemsAreEntries(st, uid, s, lengths, st');
    PutItemsAreAll(st, uid, s, lengths, st');
    PromptsStayEnded(st, uid, s, lengths, st');
    QueueGrows(st, st', PutItems(st, uid, s, lengths));
  }

  /** What is new after the put are its items. */
  lemma PutItemsAreAll(st: State, uid: string, s: nat, lengths: seq<(nat, nat)>, st': State)
    requires Enabled(st, EndSession(uid, s, lengths)) && st' == PutOutputs(st, uid, s, lengths)
    ensures st'.queue == AddItems(st.queue, PutItems(st, uid, s, lengths))
    ensures forall key :: key in st'.puts && key !in st.puts ==> key in PutItems(st, uid, s, lengths)
  {
  }

  lemma PromptsStayEnded(st: State, uid: string, s: nat, lengths: seq<(nat, nat)>, st': State)
    requires Enabled(st, EndSession(uid, s, lengths)) && st' == PutOutputs(st, uid, s, lengths)
    ensures forall x :: x in st'.prompts && st'.prompts[x].ended.Some? ==> x in st.prompts && st.prompts[x].ended.Some?
  {
  }

  /** Each item put is the first of its key, and says what the output is. */
  lemma PutItemsAreEntries(st: State, uid: string, s: nat, lengths: seq<(nat, nat)>, st': State)
    requires Enabled(st, EndSession(uid, s, lengths)) && st' == PutOutputs(st, uid, s, lengths)
    requires forall key :: key in SessionOutputs(uid, s, |lengths|) ==> key !in st.queue && key !in st.prompts
    ensures var items := PutItems(st, uid, s, lengths);
            forall key :: key in items ==>
              QueueEntry(st'.prompts, st'.puts, key, Update(TagsOf(st.queue, key), items[key]))
  {
    var items := PutItems(st, uid, s, lengths);
    forall key | key in items
      ensures QueueEntry(st'.prompts, st'.puts, key, Update(TagsOf(st.queue, key), items[key]))
    {
      assert OutputEntry(st'.prompts, st'.puts, key, Update(NO_TAGS, items[key]));
    }
  }

  lemma EndSessionKeeps(st: State, uid: string, s: nat, lengths: seq<(nat, nat)>)
    requires Inv(st) && Enabled(st, EndSession(uid, s, lengths))
    ensures Inv(Apply(st, EndSession(uid, s, lengths)))
  {
    var st' := PutOutputs(st, uid, s, lengths);
    assert st' == Apply(st, EndSession(uid, s, lengths));
    assert st'.prompts.Keys == st.prompts.Keys;
    PutOutputsGrows(st, uid, s, lengths, st');
    PutOutputsPrompts(st, uid, s, lengths, st');
    PutOutputsQueue(st, uid, s, lengths, st');
    ViewsSurvive(st, st');
  }

  lemma EndGrows(st: State, uid: string, status: Status, st': State)
    requires GoodPrompts(st.prompts) && GoodPuts(st.prompts, st.puts)
    requires uid in st.prompts && st.prompts[uid].ended.None? && st' == End(st, uid, status)
    requires status == Failure || (status == Finished && AllDone(st.prompts[uid]))
    ensures Grow(st, st') && GoodPrompts(st'.prompts) && GoodPuts(st'.prompts, st'.puts)
  {
    forall x | x in st'.prompts ensures GoodPrompt(x, st'.prompts[x]) {
      assert GoodPrompt(x, st.prompts[x]);
    }
  }

  lemma EndQueue(st: State, uid: string, status: Status, st': State)
    requires Inv(st) && uid in st.prompts && st.prompts[uid].ended.None? && st' == End(st, uid, status) && Grow(st, st')
    ensures GoodQueue(st'.queue, st'.prompts, st'.puts)
  {
    OutputsAreNotPrompts(st.prompts, st.puts);
    assert uid in st.queue ==> QueueEntry(st.prompts, st.puts, uid, st.queue[uid]);
    QueueGrows(st, st', map[uid := Tags(None, Some(status), None)]);
  }

  lemma EndKeeps(st: State, uid: string, status: Status)
    requires Inv(st) && uid in st.prompts && st.prompts[uid].ended.None?
    requires status == Failure || (status == Finished && AllDone(st.prompts[uid]))
    ensures Inv(End(st, uid, status))
  {
    var st' := End(st, uid, status);
    EndGrows(st, uid, status, st');
    EndQueue(st, uid, status, st');
    ViewsSurvive(st, st');
  }

  lemma QueueIsView(st: State)
    requires Inv(st)
    ensures GoodView(st.queue, st.prompts, st.puts)
  {
  }

  /** Merging a view into the buffer. */
  lemma MergeViewKeeps(st: State, v: Partition)
    requires Inv(st) && GoodView(v, st.prompts, st.puts)
    ensures GoodBuffer(AddItems(st.buffer, v), st.prompts, st.puts)
  {
    OutputsAreNotPrompts(st.prompts, st.puts);
    var b' := AddItems(st.buffer, v);
    forall key | key in b' ensures BufferEntry(st.prompts, st.puts, key, b'[key]) {
      if key in v {
        assert QueueEntry(st.prompts, st.puts, key, v[key]);
      }
      if key in st.buffer {
        assert BufferEntry(st.prompts, st.puts, key, st.buffer[key]);
      }
    }
  }

  lemma StepKeepsInv(st: State, e: Step)
    requires Inv(st) && Enabled(st, e)
    ensures Inv(Apply(st, e))
  {
    match e
    case Register(sessions, step) => RegisterKeeps(st, sessions, step);
    case EndSession(uid, s, lengths) => EndSessionKeeps(st, uid, s, lengths);
    case PutFinished(uid) => EndKeeps(st, uid, Finished);
    case PutFailure(uid) => EndKeeps(st, uid, Failure);
    case TakeSnapshot => QueueIsView(st);
    case AddSnapshot => MergeViewKeeps(st, st.snapshot.value);
  }

  // -------------------------------------------------------------------- runs

  ghost predicate IsRun(st: State, es: seq<Step>)
    decreases |es|
  {
    es == [] || (Enabled(st, es[0]) && IsRun(Apply(st, es[0]), es[1..]))
  }

  ghost function Run(st: State, es: seq<Step>): State
    requires IsRun(st, es)
    decreases |es|
  {
    if es == [] then st else Run(Apply(st, es[0]), es[1..])
  }

  lemma {:induction false} RunKeepsInv(st: State, es: seq<Step>)
    requires Inv(st) && IsRun(st, es)
    ensures Inv(Run(st, es))
    decreases |es|
  {
    if es != [] {
      StepKeepsInv(st, es[0]);
      RunKeepsInv(Apply(st, es[0]), es[1..]);
    }
  }

  ghost predicate KeysMatch(puts: map<string, Output>) {
    forall key :: key in puts ==> key == OutputKey(puts[key].uid, puts[key].session, puts[key].index)
  }

  /** A step forgets no put and changes none. */
  lemma StepKeepsPuts(st: State, e: Step)
    requires Enabled(st, e) && KeysMatch(st.puts)
    ensures KeysMatch(Apply(st, e).puts)
    ensures forall key :: key in st.puts ==> key in Apply(st, e).puts && Apply(st, e).puts[key] == st.puts[key]
  {
    if e.EndSession? {
      var outputs := SessionOutputs(e.uid, e.session, |e.lengths|);
      forall key | key in st.puts && key in outputs ensures outputs[key] == st.puts[key] {
        var o := st.puts[key];
        OutputKeysAreDistinct(e.uid, e.session, outputs[key].index, o.uid, o.session, o.index);
      }
    }
  }

  lemma EndSessionRecords(st: State, uid: string, s: nat, lengths: seq<(nat, nat)>, i: nat)
    requires Enabled(st, EndSession(uid, s, lengths)) && i < |lengths|
    ensures var puts := Apply(st, EndSession(uid, s, lengths)).puts;
            OutputKey(uid, s, i) in puts && puts[OutputKey(uid, s, i)].uid == uid
  {
    var outputs := SessionOutputs(uid, s, |lengths|);
    assert OutputKey(uid, s, i) in outputs;
  }

  /** Every output of every session that ends in the run is recorded. */
  lemma {:induction false} PutsAreRecorded(st: State, es: seq<Step>, at: nat, i: nat)
    requires KeysMatch(st.puts) && IsRun(st, es) && at < |es| && es[at].EndSession? && i < |es[at].lengths|
    ensures var key := OutputKey(es[at].uid, es[at].session, i);
            key in Run(st, es).puts && Run(st, es).puts[key].uid == es[at].uid
    decreases |es|
  {
    StepKeepsPuts(st, es[0]);
    if at == 0 {
      EndSessionRecords(st, es[0].uid, es[0].session, es[0].lengths, i);
      PutsStay(Apply(st, es[0]), es[1..], OutputKey(es[0].uid, es[0].session, i));
    } else {
      PutsAreRecorded(Apply(st, es[0]), es[1..], at - 1, i);
    }
  }

  lemma {:induction false} PutsStay(st: State, es: seq<Step>, key: string)
    requires KeysMatch(st.puts) && IsRun(st, es) && key in st.puts
    ensures key in Run(st, es).puts && Run(st, es).puts[key] == st.puts[key]
    decreases |es|
  {
    if es != [] {
      StepKeepsPuts(st, es[0]);
      PutsStay(Apply(st, es[0]), es[1..], key);
    }
  }

  /** Wherever the key stands, it has these tags, and the queue has it. */
  predicate Tagged(st: State, key: string, tags: Tags) {
    && key in st.puts && key in st.queue && st.queue[key] == tags
    && (st.snapshot.Some? && key in st.snapshot.value ==> st.snapshot.value[key] == tags)
    && (key in st.buffer ==> st.buffer[key] == tags)
  }

  /** A key that was never put is nowhere. */
  lemma NotPutIsNowhere(st: State, key: string)
    requires Inv(st) && key !in st.puts && key !in st.prompts
    ensures key !in st.queue && key !in st.buffer && (st.snapshot.Some? ==> key !in st.snapshot.value)
  {
    QueueIsView(st);
    NotPutNotInView(st.queue, st.prompts, st.puts, key);
    if st.snapshot.Some? {
      NotPutNotInView(st.snapshot.value, st.prompts, st.puts, key);
    }
    NotPutNotInBuffer(st.buffer, st.prompts, st.puts, key);
  }

  lemma NotPutNotInBuffer(p: Partition, prompts: map<string, Prompt>, puts: map<string, Output>, key: string)
    requires GoodBuffer(p, prompts, puts) && key !in puts && key !in prompts
    ensures key !in p
  {
  }

  lemma NotPutNotInView(p: Partition, prompts: map<string, Prompt>, puts: map<string, Output>, key: string)
    requires GoodView(p, prompts, puts) && key !in puts && key !in prompts
    ensures key !in p
  {
  }

  /** When a session ends, output i is put with its own lengths. */
  lemma EndSessionTags(st: State, uid: string, s: nat, lengths: seq<(nat, nat)>, i: nat)
    requires Inv(st) && Enabled(st, EndSession(uid, s, lengths)) && i < |lengths|
    ensures Tagged(Apply(st, EndSession(uid, s, lengths)), OutputKey(uid, s, i),
                   Tags(Some(st.prompts[uid].step), Some(Success), Some(lengths[i])))
  {
    var key, outputs := OutputKey(uid, s, i), SessionOutputs(uid, s, |lengths|);
    assert key in outputs;
    SessionOutputsAreNew(st, uid, s, |lengths|);
    NotPutIsNowhere(st, key);
    OutputKeysAreDistinct(uid, s, i, uid, s, outputs[key].index);
    EndSessionRecords(st, uid, s, lengths, i);
  }

  predicate IsFull(tags: Tags) {
    tags.globalSteps.Some? && tags.status.Some? && tags.lengths.Some?
  }

  /** No step changes the tags of an output. */
  lemma StepKeepsTags(st: State, e: Step, key: string, tags: Tags)
    requires Inv(st) && Enabled(st, e) && Tagged(st, key, tags) && IsFull(tags)
    ensures Tagged(Apply(st, e), key, tags)
  {
    OutputsAreNotPrompts(st.prompts, st.puts);
    StepKeepsPuts(st, e);
    match e
    case Register(sessions, step) => RegisteredAreNew(st, sessions, step);
    case EndSession(uid, s, lengths) => SessionOutputsAreNew(st, uid, s, |lengths|);
    case _ =>
  }

  lemma {:induction false} TagsStay(st: State, es: seq<Step>, key: string, tags: Tags)
    requires Inv(st) && IsRun(st, es) && Tagged(st, key, tags) && IsFull(tags)
    ensures Tagged(Run(st, es), key, tags)
    decreases |es|
  {
    if es != [] {
      StepKeepsInv(st, es[0]);
      StepKeepsTags(st, es[0], key, tags);
      TagsStay(Apply(st, es[0]), es[1..], key, tags);
    }
  }

  /** The step of a prompt never changes. */
  lemma {:induction false} PromptsStay(st: State, es: seq<Step>, uid: string)
    requires IsRun(st, es) && uid in st.prompts
    ensures uid in Run(st, es).prompts && Run(st, es).prompts[uid].step == st.prompts[uid].step
    decreases |es|
  {
    if es != [] {
      PromptsStay(Apply(st, es[0]), es[1..], uid);
    }
  }

  /** Output i of a session that ends in the run has the tags it was put with, to the end. */
  lemma {:induction false} OutputsKeepTags(st: State, es: seq<Step>, at: nat, i: nat)
    requires Inv(st) && IsRun(st, es) && at < |es| && es[at].EndSession? && i < |es[at].lengths|
    ensures var st', e := Run(st, es), es[at];
            e.uid in st'.prompts &&
            Tagged(st', OutputKey(e.uid, e.session, i),
                   Tags(Some(st'.prompts[e.uid].step), Some(Success), Some(e.lengths[i])))
    decreases |es|
  {
    if at == 0 {
      FirstKeepsTags(st, es, i);
    } else {
      StepKeepsInv(st, es[0]);
      OutputsKeepTags(Apply(st, es[0]), es[1..], at - 1, i);
    }
  }

  lemma FirstKeepsTags(st: State, es: seq<Step>, i: nat)
    requires Inv(st) && es != [] && IsRun(st, es) && es[0].EndSession? && i < |es[0].lengths|
    ensures var st', e := Run(st, es), es[0];
            e.uid in st'.prompts &&
            Tagged(st', OutputKey(e.uid, e.session, i),
                   Tags(Some(st'.prompts[e.uid].step), Some(Success), Some(e.lengths[i])))
  {
    var e, st1 := es[0], Apply(st, es[0]);
    StepKeepsInv(st, e);
    EndSessionTags(st, e.uid, e.session, e.lengths, i);
    TagsStay(st1, es[1..], OutputKey(e.uid, e.session, i),
             Tags(Some(st.prompts[e.uid].step), Some(Success), Some(e.lengths[i])));
    PromptsStay(st1, es[1..], e.uid);
  }

  /** The batch has every output under its own tags: the step sampled, success, and the lengths its
      worker put with it. */
  lemma SampleHasRightTags(es: seq<Step>, g: nat, batch: KVBatchMeta, at: nat, i: nat, j: nat)
    requires IsRun(Init(), es) && IsBatch(Run(Init(), es).buffer, Some(g), batch)
    requires at < |es| && es[at].EndSession? && i < |es[at].lengths|
    requires j < |batch.keys| && batch.keys[j] == OutputKey(es[at].uid, es[at].session, i)
    ensures batch.tags[j] == Tags(Some(g), Some(Success), Some(es[at].lengths[i]))
  {
    OutputsKeepTags(Init(), es, at, i);
    assert batch.keys[j] in batch.keys;
  }

  /** Sampling never misses a tag. */
  lemma NoKeyError(es: seq<Step>)
    requires IsRun(Init(), es)
    ensures Complete(Run(Init(), es).buffer)
  {
    RunKeepsInv(Init(), es);
    var st := Run(Init(), es);
    forall key | key in st.buffer ensures BufferEntry(st.prompts, st.puts, key, st.buffer[key]) {
    }
  }

  lemma NoWaitMeansEnded(st: State, g: nat, uid: string)
    requires Inv(st) && !MustWait(st.buffer, Some(g)) && uid in st.prompts && st.prompts[uid].step == g
    ensures st.prompts[uid].ended == Some(Finished) || st.prompts[uid].ended == Some(Failure)
    ensures st.buffer[uid].status == st.prompts[uid].ended
  {
    OutputsAreNotPrompts(st.prompts, st.puts);
    assert GoodPrompt(uid, st.prompts[uid]);
    assert BufferEntry(st.prompts, st.puts, uid, st.buffer[uid]);
  }

  lemma FinishedOutputsAreInBatch(st: State, g: nat, batch: KVBatchMeta, key: string)
    requires Inv(st) && !MustWait(st.buffer, Some(g)) && IsBatch(st.buffer, Some(g), batch)
    requires key in st.puts && st.prompts[st.puts[key].uid].step == g
    requires st.prompts[st.puts[key].uid].ended == Some(Finished)
    ensures key in batch.keys
  {
    NoWaitMeansEnded(st, g, st.puts[key].uid);
    assert key in st.buffer && key in st.puts;
    OutputsAreNotPrompts(st.prompts, st.puts);
    assert BufferEntry(st.prompts, st.puts, key, st.buffer[key]);
    assert InBatch(st.buffer, Some(g), key);
  }

  /** Completeness: whatever the interleaving, when sampling step g returns, every prompt registered
      for g has finished or failed, and all sessions of a finished prompt have ended. */
  lemma SampleWaitsForAll(es: seq<Step>, g: nat, uid: string)
    requires IsRun(Init(), es) && !MustWait(Run(Init(), es).buffer, Some(g))
    requires var ps := Run(Init(), es).prompts; uid in ps && ps[uid].step == g
    ensures var p := Run(Init(), es).prompts[uid];
            (p.ended == Some(Finished) && AllDone(p)) || p.ended == Some(Failure)
  {
    RunKeepsInv(Init(), es);
    var st := Run(Init(), es);
    NoWaitMeansEnded(st, g, uid);
    assert GoodPrompt(uid, st.prompts[uid]);
  }

  /** Completeness: every output that a session of a finished prompt has put is in the batch. */
  lemma SampleIsComplete(es: seq<Step>, g: nat, batch: KVBatchMeta, at: nat, i: nat)
    requires IsRun(Init(), es)
    requires var b := Run(Init(), es).buffer; !MustWait(b, Some(g)) && IsBatch(b, Some(g), batch)
    requires at < |es| && es[at].EndSession? && i < |es[at].lengths|
    requires var ps := Run(Init(), es).prompts;
             es[at].uid in ps && ps[es[at].uid].step == g && ps[es[at].uid].ended == Some(Finished)
    ensures OutputKey(es[at].uid, es[at].session, i) in batch.keys
  {
    RunKeepsInv(Init(), es);
    PutsAreRecorded(Init(), es, at, i);
    FinishedOutputsAreInBatch(Run(Init(), es), g, batch, OutputKey(es[at].uid, es[at].session, i));
  }

  /** Soundness: the batch holds nothing but outputs that sessions of step g have put. */
  lemma SampleIsSound(es: seq<Step>, g: nat, batch: KVBatchMeta, key: string)
    requires IsRun(Init(), es) && IsBatch(Run(Init(), es).buffer, Some(g), batch) && key in batch.keys
    ensures var st := Run(Init(), es);
            && key in st.puts && st.puts[key].uid in st.prompts && st.prompts[st.puts[key].uid].step == g
            && key == OutputKey(st.puts[key].uid, st.puts[key].session, st.puts[key].index)
  {
    RunKeepsInv(Init(), es);
    var st := Run(Init(), es);
    assert InBatch(st.buffer, Some(g), key);
    assert BufferEntry(st.prompts, st.puts, key, st.buffer[key]);
    if key in st.prompts {
      assert GoodPrompt(key, st.prompts[key]);
    }
  }

  /** The buffer after one poll. */
  ghost function AfterPoll(st: State): State
  {
    var st1 := if st.snapshot.Some? then Apply(st, AddSnapshot) else st;
    Apply(Apply(st1, TakeSnapshot), AddSnapshot)
  }

  /** Every prompt of step g has ended. */
  predicate AllEnded(st: State, g: nat) {
    forall uid :: uid in st.prompts && st.prompts[uid].step == g ==> st.prompts[uid].ended.Some?
  }

  /** Once every prompt of step g has ended, one more poll lets the sampler through. */
  lemma OnePollSuffices(es: seq<Step>, g: nat)
    requires IsRun(Init(), es) && AllEnded(Run(Init(), es), g)
    ensures !MustWait(AfterPoll(Run(Init(), es)).buffer, Some(g))
  {
    RunKeepsInv(Init(), es);
    var st := Run(Init(), es);
    if st.snapshot.Some? {
      StepKeepsInv(st, AddSnapshot);
      PollClears(Apply(st, AddSnapshot), g);
    } else {
      PollClears(st, g);
    }
  }

  lemma PollClears(st: State, g: nat)
    requires Inv(st) && st.snapshot.None? && AllEnded(st, g)
    ensures !MustWait(AddItems(st.buffer, st.queue), Some(g))
  {
    OutputsAreNotPrompts(st.prompts, st.puts);
    QueueIsView(st);
    MergeViewKeeps(st, st.queue);
    var b' := AddItems(st.buffer, st.queue);
    forall key | key in b' && b'[key].globalSteps == Some(g) ensures b'[key].status != Some(Running) {
      assert BufferEntry(st.prompts, st.puts, key, b'[key]);
      if key in st.prompts {
        assert GoodPrompt(key, st.prompts[key]);
        assert QueueEntry(st.prompts, st.puts, key, st.queue[key]);
      }
    }
  }
}
