/** Request and reply over publish/subscribe, on a network that drops, repeats and reorders messages. */
module RequestReplies {
  import opened Common
  import Runs

  type Payload = seq<int>

  datatype Envelope = Envelope(correlation: string, replyTo: string, isError: bool, payload: Payload)

  /** What is published: an envelope, or bytes that do not decode to one. */
  datatype Message = Message(topic: string, body: Option<Envelope>)

  function ReplyTopic(correlation: string): string {
    "reply." + correlation
  }

  /** What the business function returns for a payload. */
  datatype Answer = Good(payload: Payload) | Bad(text: Payload)

  /** The message a handler publishes for what it receives, if any: only a request envelope is answered. */
  function Respond(m: Message, answer: Answer): Option<Message> {
    if m.body.None? || m.body.value.replyTo == "" then None
    else
      var env := m.body.value;
      var response := match answer
        case Good(p) => Envelope(env.correlation, "", false, p)
        case Bad(t) => Envelope(env.correlation, "", true, t);
      Some(Message(env.replyTo, Some(response)))
  }

  function AnswerIn(e: Envelope): Answer {
    if e.isError then Bad(e.payload) else Good(e.payload)
  }

  // --- Interleaved steps ---

  datatype Phase = Subscribed | NotSent | Published | Returned(answer: Answer) | GaveUp

  /** A Request in progress; `got` is its one-slot channel. */
  datatype Request = Request(topic: string, payload: Payload, phase: Phase, got: Option<Envelope>)

  /**
   * `published` only grows: a message may be delivered any number of times, in any order, or never.
   * `computed` holds what handlers have answered, with the message each answer was computed from.
   */
  datatype World = World(requests: map<string, Request>, published: set<Message>, computed: set<(Message, Answer)>)

  datatype Step =
    | Begin(correlation: string, topic: string, payload: Payload)   // subscribe to the reply topic
    | Send(correlation: string)                                     // publish the request
    | Noise(m: Message)                                             // someone else publishes
    | Serve(m: Message, answer: Answer)                             // a handler, on whatever topic, receives `m`
    | Deliver(correlation: string, m: Message)                      // the reply subscription receives `m`
    | Fail(correlation: string)                                     // the request cannot be published
    | Accept(correlation: string)
    | Abandon(correlation: string)                                  // timeout or cancellation

  function RequestMessage(correlation: string, r: Request): Message {
    Message(r.topic, Some(Envelope(correlation, ReplyTopic(correlation), false, r.payload)))
  }

  predicate Waiting(r: Request) {
    r.phase.Subscribed? || r.phase.Published?
  }

  predicate Sent(r: Request) {
    r.phase.Published? || r.phase.Returned? || r.phase.GaveUp?
  }

  ghost predicate Enabled(w: World, s: Step) {
    match s
    case Begin(c, _, _) => c !in w.requests
    case Send(c) => c in w.requests && w.requests[c].phase.Subscribed?
    case Noise(_) => true
    case Serve(m, _) => m in w.published
    case Deliver(c, m) => c in w.requests && Waiting(w.requests[c]) && m in w.published && m.topic == ReplyTopic(c)
    case Fail(c) => c in w.requests && w.requests[c].phase.Subscribed?
    case Accept(c) => c in w.requests && w.requests[c].phase.Published? && w.requests[c].got.Some?
    case Abandon(c) => c in w.requests && w.requests[c].phase.Published?
  }

  ghost function Next(w: World, s: Step): World
    requires Enabled(w, s)
  {
    match s
    case Begin(c, topic, payload) => w.(requests := w.requests[c := Request(topic, payload, Subscribed, None)])
    case Send(c) =>
      w.(requests := w.requests[c := w.requests[c].(phase := Published)],
         published := w.published + {RequestMessage(c, w.requests[c])})
    case Noise(m) => w.(published := w.published + {m})
    case Serve(m, answer) =>
      (var response := Respond(m, answer);
       if response.None? then w
       else w.(published := w.published + {response.value}, computed := w.computed + {(m, answer)}))
    case Deliver(c, m) =>
      if m.body.None? || w.requests[c].got.Some? then w
      else w.(requests := w.requests[c := w.requests[c].(got := m.body)])
    case Fail(c) => w.(requests := w.requests[c := w.requests[c].(phase := NotSent)])
    case Accept(c) =>
      w.(requests := w.requests[c := w.requests[c].(phase := Returned(AnswerIn(w.requests[c].got.value)))])
    case Abandon(c) => w.(requests := w.requests[c := w.requests[c].(phase := GaveUp)])
  }

  ghost predicate Moves(w: World, w': World) {
    exists s :: Enabled(w, s) && w' == Next(w, s)
  }

  const START := World(map[], {}, {})

  ghost predicate IsStart(w: World) {
    w == START
  }

  ghost predicate IsRun(run: seq<World>) {
    Runs.IsRun(IsStart, Moves, run)
  }

  // --- What belongs on the reply topic of request `c` ---

  /** The request `c` was made and has gone out, and `m` is its message. */
  predicate IsRequestOf(w: World, m: Message, c: string) {
    c in w.requests && Sent(w.requests[c]) && m == RequestMessage(c, w.requests[c])
  }

  /** `m` is a reply to `c`, computed by a handler from the message of `c`. */
  predicate IsReplyTo(w: World, m: Message, c: string) {
    && c in w.requests && Sent(w.requests[c])
    && m.topic == ReplyTopic(c) && m.body.Some? && m.body.value.replyTo == "" && m.body.value.correlation == c
    && (RequestMessage(c, w.requests[c]), AnswerIn(m.body.value)) in w.computed
  }

  /** On the reply topic of `c` there are only replies to `c`, and only `c` asks for replies there. */
  predicate Proper(w: World, m: Message, c: string) {
    m.body.Some? ==>
      && (m.topic == ReplyTopic(c) ==> IsReplyTo(w, m, c))
      && (m.body.value.replyTo == ReplyTopic(c) ==> IsRequestOf(w, m, c))
  }

  ghost predicate Sound(w: World, c: string) {
    forall m :: m in w.published ==> Proper(w, m, c)
  }

  /** The step puts nothing on the reply topic of `c`, and points no handler there, that does not belong there. */
  ghost predicate Polite(w: World, s: Step, c: string)
    requires Enabled(w, s)
  {
    match s
    case Send(d) => w.requests[d].topic != ReplyTopic(c)
    case Noise(m) => Proper(w, m, c)
    case _ => true
  }

  ghost predicate PoliteMove(c: string, w: World, w': World) {
    exists s :: Enabled(w, s) && Polite(w, s, c) && w' == Next(w, s)
  }

  ghost function PoliteMoves(c: string): (World, World) -> bool {
    (w, w') => PoliteMove(c, w, w')
  }

  ghost predicate IsPoliteRun(run: seq<World>, c: string) {
    Runs.IsRun(IsStart, PoliteMoves(c), run)
  }

  lemma ReplyTopicInjective(c: string, d: string)
    ensures ReplyTopic(c) != "" && (ReplyTopic(c) == ReplyTopic(d) ==> c == d)
  {
    assert ReplyTopic(c)[6..] == c && ReplyTopic(d)[6..] == d;
  }

  /** A message that was proper stays so when requests move on and answers accumulate. */
  lemma StillProper(w: World, w': World, m: Message, c: string)
    requires Proper(w, m, c) && w.computed <= w'.computed
    requires c in w.requests && Sent(w.requests[c]) ==>
               c in w'.requests && Sent(w'.requests[c])
               && RequestMessage(c, w'.requests[c]) == RequestMessage(c, w.requests[c])
    ensures Proper(w', m, c)
  {
  }

  /** A response on the reply topic of `c` answers the message of `c`. */
  lemma ServeProper(w: World, m: Message, answer: Answer, c: string)
    requires Enabled(w, Serve(m, answer)) && Sound(w, c) && Respond(m, answer).Some?
    ensures Proper(Next(w, Serve(m, answer)), Respond(m, answer).value, c)
  {
    assert Proper(w, m, c);
    ReplyTopicInjective(c, c);
  }

  lemma SendProper(w: World, d: string, c: string)
    requires Enabled(w, Send(d))
    ensures Proper(Next(w, Send(d)), RequestMessage(d, w.requests[d]), c) <==> w.requests[d].topic != ReplyTopic(c)
  {
    ReplyTopicInjective(d, c);
  }

  /** What step `s` publishes, if anything. */
  function Adds(w: World, s: Step): set<Message> {
    match s
    case Send(d) => if d in w.requests then {RequestMessage(d, w.requests[d])} else {}
    case Noise(m) => {m}
    case Serve(m, answer) => if Respond(m, answer).Some? then {Respond(m, answer).value} else {}
    case _ => {}
  }

  lemma OldStaysProper(w: World, s: Step, m: Message, c: string)
    requires Enabled(w, s) && Sound(w, c) && m in w.published
    ensures Proper(Next(w, s), m, c)
  {
    assert Proper(w, m, c);
    StillProper(w, Next(w, s), m, c);
  }

  lemma NewIsProper(w: World, s: Step, m: Message, c: string)
    requires Enabled(w, s) && Sound(w, c) && m in Adds(w, s)
    ensures Proper(Next(w, s), m, c) <==> Polite(w, s, c)
  {
    match s
    case Send(d) => SendProper(w, d, c);
    case Serve(n, answer) => ServeProper(w, n, answer, c);
    case Noise(_) =>
  }

  /** A step keeps the reply topic of `c` sound exactly if it is polite to `c`. */
  lemma StepExact(w: World, s: Step, c: string)
    requires Enabled(w, s) && Sound(w, c)
    ensures Sound(Next(w, s), c) <==> Polite(w, s, c)
  {
    assert Next(w, s).published == w.published + Adds(w, s);
    forall m | m in w.published ensures Proper(Next(w, s), m, c) {
      OldStaysProper(w, s, m, c);
    }
    forall m | m in Adds(w, s) ensures Proper(Next(w, s), m, c) <==> Polite(w, s, c) {
      NewIsProper(w, s, m, c);
    }
    if !Polite(w, s, c) {
      assert exists m :: m in Adds(w, s);
    }
  }

  /** What a request has taken from its channel or returned was computed from its own message. */
  ghost predicate Answered(w: World, c: string) {
    c in w.requests ==>
      var r := w.requests[c];
      && (r.got.Some? ==> (RequestMessage(c, r), AnswerIn(r.got.value)) in w.computed)
      && (r.phase.Returned? ==> (RequestMessage(c, r), r.phase.answer) in w.computed)
  }

  lemma AnsweredStep(w: World, s: Step, c: string)
    requires Enabled(w, s) && Sound(w, c) && Answered(w, c)
    ensures Answered(Next(w, s), c)
  {
    if s.Deliver? && s.correlation == c {
      assert Proper(w, s.m, c);
    }
  }

  lemma RunInv(run: seq<World>, k: nat, c: string)
    requires IsPoliteRun(run, c) && k < |run|
    ensures Sound(run[k], c) && Answered(run[k], c)
  {
    forall w, w' | Sound(w, c) && Answered(w, c) && PoliteMove(c, w, w') ensures Sound(w', c) && Answered(w', c) {
      var s :| Enabled(w, s) && Polite(w, s, c) && w' == Next(w, s);
      StepExact(w, s, c);
      AnsweredStep(w, s, c);
    }
    Runs.InvariantHolds(IsStart, PoliteMoves(c), w => Sound(w, c) && Answered(w, c), run, k);
  }

  // --- Theorems ---

  /** The reply topic of `c` is sound at every moment of a run exactly if every step is polite to `c`. */
  lemma SoundIffPolite(run: seq<World>, c: string)
    requires IsRun(run)
    ensures (forall k :: 0 <= k < |run| ==> Sound(run[k], c)) <==> IsPoliteRun(run, c)
  {
    if IsPoliteRun(run, c) {
      forall k | 0 <= k < |run| ensures Sound(run[k], c) {
        RunInv(run, k, c);
      }
    }
    if forall k :: 0 <= k < |run| ==> Sound(run[k], c) {
      forall k | 0 <= k < |run| - 1 ensures Runs.Follows(PoliteMoves(c), run, k) {
        assert Runs.Follows(Moves, run, k);
        var s :| Enabled(run[k], s) && run[k + 1] == Next(run[k], s);
        assert Sound(run[k], c) && Sound(run[k + 1], c);
        StepExact(run[k], s, c);
      }
    }
  }

  /** A Request returns only an answer that a handler computed from that very request's message. */
  lemma OwnAnswer(run: seq<World>, k: nat, c: string)
    requires IsPoliteRun(run, c) && k < |run| && c in run[k].requests && run[k].requests[c].phase.Returned?
    ensures (RequestMessage(c, run[k].requests[c]), run[k].requests[c].phase.answer) in run[k].computed
  {
    RunInv(run, k, c);
  }

  /** Whatever is published on a reply topic answers a request that had subscribed to it and been sent. */
  lemma SubscribedBeforeReply(run: seq<World>, k: nat, m: Message, c: string)
    requires IsPoliteRun(run, c) && k < |run| && m in run[k].published && m.body.Some? && m.topic == ReplyTopic(c)
    ensures c in run[k].requests && Sent(run[k].requests[c]) && m.body.value.correlation == c
    ensures (RequestMessage(c, run[k].requests[c]), AnswerIn(m.body.value)) in run[k].computed
  {
    RunInv(run, k, c);
    assert Proper(run[k], m, c);
  }

  /** A response never causes another response, on whatever topic a handler meets it. */
  lemma ResponsesEndThere(run: seq<World>, k: nat, m: Message, c: string, answer: Answer)
    requires IsPoliteRun(run, c) && k < |run| && m in run[k].published && m.topic == ReplyTopic(c)
    ensures Next(run[k], Serve(m, answer)) == run[k]
  {
    RunInv(run, k, c);
    assert Proper(run[k], m, c);
  }

  /** Only an envelope that names a reply topic is answered: there, with its own id, and with the answer, error or not. */
  lemma RespondExact(m: Message, answer: Answer)
    ensures Respond(m, answer).Some? <==> m.body.Some? && m.body.value.replyTo != ""
    ensures Respond(m, answer).Some? ==>
            var r := Respond(m, answer).value;
            && r.topic == m.body.value.replyTo && r.body.Some? && r.body.value.replyTo == ""
            && r.body.value.correlation == m.body.value.correlation && AnswerIn(r.body.value) == answer
            && (r.body.value.isError <==> answer.Bad?)
  {
  }

  /** A request takes the first envelope delivered and drops later ones; what is no envelope is ignored. */
  lemma DeliverExact(w: World, c: string, m: Message)
    requires Enabled(w, Deliver(c, m))
    ensures var w' := Next(w, Deliver(c, m));
            && (w.requests[c].got.Some? || m.body.None? ==> w' == w)
            && (w.requests[c].got.None? && m.body.Some? ==> w' == w.(requests := w.requests[c := w.requests[c].(got := m.body)]))
  {
  }

  /** Whatever a handler answers, a value or an error, a request can come back with. */
  lemma RequestAnswered(c: string, topic: string, p: Payload, answer: Answer) returns (run: seq<World>)
    ensures IsRun(run)
    ensures var w := run[|run| - 1];
            c in w.requests && w.requests[c] == Request(topic, p, Returned(answer), w.requests[c].got)
  {
    run := [START];
    run := Runs.Extend(IsStart, Moves, run, Next(Runs.Last(run), Begin(c, topic, p)));
    run := Runs.Extend(IsStart, Moves, run, Next(Runs.Last(run), Send(c)));
    var m := RequestMessage(c, Request(topic, p, Published, None));
    assert var w := run[|run| - 1]; m in w.published && w.requests[c] == Request(topic, p, Published, None);
    RespondExact(m, answer);
    ReplyTopicInjective(c, c);
    run := Runs.Extend(IsStart, Moves, run, Next(Runs.Last(run), Serve(m, answer)));
    var r := Respond(m, answer).value;
    assert var w := run[|run| - 1]; r in w.published && w.requests[c] == Request(topic, p, Published, None);
    run := Runs.Extend(IsStart, Moves, run, Next(Runs.Last(run), Deliver(c, r)));
    run := Runs.Extend(IsStart, Moves, run, Next(Runs.Last(run), Accept(c)));
  }

  /**
   * The reply subscription does not look at the correlation id: a request sent to another request's
   * reply topic is taken for its answer, although no handler computed anything.
   */
  lemma StrayEnvelopeAccepted(c: string, d: string, p: Payload, q: Payload) returns (run: seq<World>)
    requires c != d
    ensures IsRun(run)
    ensures var w := run[|run| - 1]; c in w.requests && w.requests[c].phase == Returned(Good(q)) && w.computed == {}
  {
    run := [START];
    run := Runs.Extend(IsStart, Moves, run, Next(Runs.Last(run), Begin(c, "work", p)));
    run := Runs.Extend(IsStart, Moves, run, Next(Runs.Last(run), Send(c)));
    run := Runs.Extend(IsStart, Moves, run, Next(Runs.Last(run), Begin(d, ReplyTopic(c), q)));
    assert var w := run[|run| - 1]; w.requests[c].got.None? && w.requests[c].phase.Published? && w.computed == {};
    run := Runs.Extend(IsStart, Moves, run, Next(Runs.Last(run), Send(d)));
    var m := Message(ReplyTopic(c), Some(Envelope(d, ReplyTopic(d), false, q)));
    assert var w := run[|run| - 1]; m in w.published && w.requests[c].got.None? && w.requests[c].phase.Published? && w.computed == {};
    run := Runs.Extend(IsStart, Moves, run, Next(Runs.Last(run), Deliver(c, m)));
    run := Runs.Extend(IsStart, Moves, run, Next(Runs.Last(run), Accept(c)));
  }

  /** Nor may others' envelopes: one published on the reply topic is taken for the answer just the same. */
  lemma ForeignEnvelopeAccepted(c: string, p: Payload, q: Payload) returns (run: seq<World>)
    ensures IsRun(run)
    ensures var w := run[|run| - 1]; c in w.requests && w.requests[c].phase == Returned(Good(q)) && w.computed == {}
  {
    run := [START];
    run := Runs.Extend(IsStart, Moves, run, Next(Runs.Last(run), Begin(c, "work", p)));
    run := Runs.Extend(IsStart, Moves, run, Next(Runs.Last(run), Send(c)));
    var m := Message(ReplyTopic(c), Some(Envelope("", "", false, q)));
    run := Runs.Extend(IsStart, Moves, run, Next(Runs.Last(run), Noise(m)));
    run := Runs.Extend(IsStart, Moves, run, Next(Runs.Last(run), Deliver(c, m)));
    run := Runs.Extend(IsStart, Moves, run, Next(Runs.Last(run), Accept(c)));
  }
}
