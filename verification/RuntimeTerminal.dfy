/** A terminal session whose views may call back into the service while they are being written to. */
module RuntimeTerminal {
  import opened Basics
  import opened BoundedHistory

  const OUTPUT_LIMIT := 64 * 1024

  type View = int

  // What a view does while it is being written to: any calls of its own, and then it may throw.
  datatype Script = Script(calls: Calls, throws: bool)
  datatype Calls = NoCalls | Then(call: Call, rest: Calls)
  datatype Call =
    | WriteCall(value: Text, reply: Script)
    | AttachCall(view: View, replies: Replies)
    | DetachCall(symbol: nat)
    | DisposeCall
  /** What a view does in each of its writes during one attach; nothing in the writes after the last. */
  datatype Replies = NoReplies | Reply(first: Script, rest: Replies)

  /** Whoever is written to does nothing but write more, to any depth; it may throw. */
  predicate OnlyWrites(calls: Calls) {
    match calls
    case NoCalls => true
    case Then(call, rest) => call.WriteCall? && OnlyWrites(call.reply.calls) && OnlyWrites(rest)
  }

  /** It writes, and then disposes of the service. */
  predicate WritesThenDisposes(calls: Calls) {
    match calls
    case NoCalls => false
    case Then(call, rest) =>
      if call.DisposeCall? then rest.NoCalls?
      else call.WriteCall? && OnlyWrites(call.reply.calls) && WritesThenDisposes(rest)
  }

  predicate AllOnlyWrite(replies: Replies) {
    replies.Reply? ==> OnlyWrites(replies.first.calls) && AllOnlyWrite(replies.rest)
  }

  /** The view itself never throws; whatever it calls may. */
  predicate NeverThrows(replies: Replies) {
    replies.Reply? ==> !replies.first.throws && NeverThrows(replies.rest)
  }

  predicate IsQuiet(replies: Replies) {
    NeverThrows(replies) && AllOnlyWrite(replies)
  }

  predicate DisposesAtOnce(replies: Replies) {
    replies.Reply? && WritesThenDisposes(replies.first.calls)
  }

  /** The view does nothing but attach another one, which goes on to catch up undisturbed. */
  function SuccessorIn(calls: Calls): Option<View> {
    match calls
    case Then(AttachCall(w, replies), NoCalls) =>
      if IsQuiet(replies) then Some(w) else None
    case _ => None
  }

  datatype Outcome = Returned(symbol: nat) | Threw

  /** An attached view, and a view that is still catching up; id tells attach calls apart. */
  datatype Attached = Attached(symbol: nat, view: View, id: nat)
  datatype Pending = Pending(id: nat, symbol: nat, view: View, pending: seq<Text>)

  /** Since when a view follows the session: the length of the stream and of what it had received by then. */
  datatype Since = Since(start: nat, mark: nat)

  /** The view got the history of its start and everything after it except what is outstanding. */
  ghost predicate Follows(got: seq<Text>, stream: seq<Text>, since: Since, outstanding: seq<Text>) {
    && since.start <= |stream| && since.mark < |got|
    && got[since.mark] == Kept(stream[..since.start], OUTPUT_LIMIT)
    && got[since.mark + 1..] + outstanding == stream[since.start..]
  }

  lemma StartsToFollow(got: seq<Text>, stream: seq<Text>)
    ensures Follows(got + [Kept(stream, OUTPUT_LIMIT)], stream, Since(|stream|, |got|), [])
  {
    assert stream[..|stream|] == stream;
  }

  lemma MissesOne(got: seq<Text>, stream: seq<Text>, since: Since, outstanding: seq<Text>, value: Text)
    requires Follows(got, stream, since, outstanding)
    ensures Follows(got, stream + [value], since, outstanding + [value])
  {
    assert (stream + [value])[..since.start] == stream[..since.start];
    assert (stream + [value])[since.start..] == stream[since.start..] + [value];
  }

  lemma GetsOne(got: seq<Text>, stream: seq<Text>, since: Since, outstanding: seq<Text>)
    requires Follows(got, stream, since, outstanding) && outstanding != []
    ensures Follows(got + [outstanding[0]], stream, since, outstanding[1..])
  {
    var more := got + [outstanding[0]];
    assert more[since.mark + 1..] == got[since.mark + 1..] + [outstanding[0]];
    assert [outstanding[0]] + outstanding[1..] == outstanding;
  }

  // ---------- one session ----------

  /** A session with the stream of values written to it and what each view has been given. */
  datatype Session = Session(
    active: bool,
    view: Option<Attached>,
    attaching: Option<Pending>,
    nextSymbol: nat,
    nextId: nat,
    stream: seq<Text>,
    received: map<View, seq<Text>>,
    viewSince: Since,
    attachingSince: Since,
    /** The first pending value is being written right now. */
    inFlight: bool)

  function Got(s: Session, v: View): seq<Text> {
    if v in s.received then s.received[v] else []
  }

  predicate IsAttaching(s: Session, id: nat) {
    s.attaching.Some? && s.attaching.value.id == id
  }

  function Outstanding(s: Session): seq<Text>
    requires s.attaching.Some? && (s.inFlight ==> s.attaching.value.pending != [])
  {
    if s.inFlight then s.attaching.value.pending[1..] else s.attaching.value.pending
  }

  ghost predicate ViewFollows(s: Session) {
    s.view.Some? ==>
      && s.view.value.id < s.nextId && s.view.value.symbol < s.nextSymbol
      && Follows(Got(s, s.view.value.view), s.stream, s.viewSince, [])
  }

  ghost predicate AttachingFollows(s: Session) {
    s.attaching.Some? ==>
      && s.attaching.value.id < s.nextId && s.attaching.value.symbol < s.nextSymbol
      && (s.inFlight ==> s.attaching.value.pending != [])
      && Follows(Got(s, s.attaching.value.view), s.stream, s.attachingSince, Outstanding(s))
      && (s.view.Some? ==>
            && s.view.value.view != s.attaching.value.view && s.view.value.id != s.attaching.value.id
            && s.view.value.symbol != s.attaching.value.symbol)
  }

  /** An attached view has everything since its attach, one that catches up has everything but what is pending. */
  ghost predicate Good(s: Session) {
    ViewFollows(s) && AttachingFollows(s)
  }

  /**
   * What any calls leave alone: an attach in progress is untouched or superseded for good, and only a new one
   * completes.
   */
  ghost predicate Continued(s: Session, t: Session) {
    && s.nextId <= t.nextId && s.nextSymbol <= t.nextSymbol && s.stream <= t.stream && (t.active ==> s.active)
    && (forall v :: Got(s, v) <= Got(t, v))
    && (forall id: nat | id < s.nextId && IsAttaching(t, id) ::
          && IsAttaching(s, id) && t.attaching.value.view == s.attaching.value.view
          && s.attaching.value.pending <= t.attaching.value.pending
          && t.attachingSince == s.attachingSince && t.inFlight == s.inFlight
          && Got(t, t.attaching.value.view) == Got(s, t.attaching.value.view))
    && (t.view.Some? && t.view.value.id < s.nextId ==>
          && s.view.Some? && s.view.value.id == t.view.value.id
          && s.view.value.view == t.view.value.view && t.viewSince == s.viewSince)
  }

  /** The same attach call is in progress, or none, whatever has been queued for it. */
  predicate SameAttach(s: Session, t: Session) {
    && t.active == s.active && t.nextId == s.nextId && t.attaching.Some? == s.attaching.Some?
    && (s.attaching.Some? ==>
          && t.attaching.value.id == s.attaching.value.id && t.attaching.value.symbol == s.attaching.value.symbol
          && t.attaching.value.view == s.attaching.value.view)
  }

  /** Nobody has been written to but the view that was attached, and no other one has been attached. */
  ghost predicate OnlyViewHeard(s: Session, t: Session) {
    && (t.view.Some? ==> s.view.Some? && t.view.value.view == s.view.value.view)
    && (forall v | s.view.Some? ==> s.view.value.view != v :: Got(t, v) == Got(s, v))
  }

  lemma ContinuedFurther(s: Session, t: Session, u: Session)
    requires Continued(s, t) && Continued(t, u)
    ensures Continued(s, u)
  {
    forall id: nat | id < s.nextId && IsAttaching(u, id) ensures IsAttaching(t, id) && IsAttaching(s, id) {}
  }

  /** While a view stays attached it is given exactly what is written, once and in order, whatever calls are made. */
  lemma AttachedViewMissesNothing(s: Session, t: Session)
    requires Good(s) && Good(t) && Continued(s, t)
    requires s.view.Some? && t.view.Some? && t.view.value.id == s.view.value.id
    ensures t.view.value.view == s.view.value.view
    ensures Got(t, s.view.value.view) == Got(s, s.view.value.view) + t.stream[|s.stream|..]
  {
    var v, since := s.view.value.view, s.viewSince;
    var before, after := Got(s, v), Got(t, v);
    assert before[since.mark + 1..] + [] == before[since.mark + 1..];
    assert after[since.mark + 1..] + [] == after[since.mark + 1..];
    assert before <= after && t.stream[since.start..] == s.stream[since.start..] + t.stream[|s.stream|..];
    assert after[..since.mark + 1] == before[..since.mark + 1];
    assert after == after[..since.mark + 1] + after[since.mark + 1..];
    assert before == before[..since.mark + 1] + before[since.mark + 1..];
  }

  // ---------- what the service does between calls to views ----------

  function Given(s: Session, v: View, value: Text): Session {
    s.(received := s.received[v := Got(s, v) + [value]])
  }

  /** A value is queued for the view that catches up and given to the attached one. */
  function Written(s: Session, value: Text): Session {
    var queued := s.(
      stream := s.stream + [value],
      attaching := match s.attaching
        case None => None
        case Some(p) => Some(p.(pending := p.pending + [value])));
    if s.view.Some? then Given(queued, s.view.value.view, value) else queued
  }

  lemma WrittenViewFollows(s: Session, value: Text)
    requires Good(s)
    ensures ViewFollows(Written(s, value))
  {
    hide Follows;
    if s.view.Some? {
      MissesOne(Got(s, s.view.value.view), s.stream, s.viewSince, [], value);
      assert [] + [value] == [value];
      GetsOne(Got(s, s.view.value.view), s.stream + [value], s.viewSince, [value]);
    }
  }

  lemma WrittenAttachingFollows(s: Session, value: Text)
    requires Good(s)
    ensures AttachingFollows(Written(s, value))
  {
    hide Follows;
    if s.attaching.Some? {
      MissesOne(Got(s, s.attaching.value.view), s.stream, s.attachingSince, Outstanding(s), value);
      assert Outstanding(Written(s, value)) == Outstanding(s) + [value];
    }
  }

  lemma WrittenContinues(s: Session, value: Text)
    requires Good(s)
    ensures Continued(s, Written(s, value))
  {
    hide Follows;
  }

  lemma WrittenIsGood(s: Session, value: Text)
    requires Good(s)
    ensures Good(Written(s, value)) && Continued(s, Written(s, value))
  {
    hide Written, ViewFollows, AttachingFollows, Continued;
    WrittenViewFollows(s, value);
    WrittenAttachingFollows(s, value);
    WrittenContinues(s, value);
  }

  /** A view starts to catch up: it is given the history. */
  function Begun(s: Session, v: View, history: Text): Session {
    Given(s.(
      nextId := s.nextId + 1,
      attaching := Some(Pending(s.nextId, s.nextSymbol, v, [])),
      nextSymbol := s.nextSymbol + 1,
      attachingSince := Since(|s.stream|, |Got(s, v)|),
      inFlight := false), v, history)
  }

  lemma BegunIsGood(s: Session, v: View)
    requires Good(s) && (s.view.Some? ==> s.view.value.view != v)
    ensures var t := Begun(s, v, Kept(s.stream, OUTPUT_LIMIT)); Good(t) && Continued(s, t)
  {
    hide Follows;
    StartsToFollow(Got(s, v), s.stream);
  }

  /** The first pending value goes out, and leaves the queue when the view has taken it. */
  function Shown(s: Session): Session
    requires s.attaching.Some? && s.attaching.value.pending != []
  {
    Given(s, s.attaching.value.view, s.attaching.value.pending[0]).(inFlight := true)
  }

  lemma ShownIsGood(s: Session)
    requires Good(s) && s.attaching.Some? && s.attaching.value.pending != [] && !s.inFlight
    ensures Good(Shown(s))
  {
    hide Follows;
    GetsOne(Got(s, s.attaching.value.view), s.stream, s.attachingSince, s.attaching.value.pending);
  }

  function Taken(s: Session): Session
    requires s.attaching.Some? && s.attaching.value.pending != []
  {
    s.(attaching := Some(s.attaching.value.(pending := s.attaching.value.pending[1..])), inFlight := false)
  }

  lemma TakenIsGood(s: Session)
    requires Good(s) && s.attaching.Some? && s.inFlight
    ensures s.attaching.value.pending != [] && Good(Taken(s))
  {
  }

  /** Nothing is pending any more: the view is attached. */
  function Completed(s: Session): Session
    requires s.attaching.Some?
  {
    var p := s.attaching.value;
    s.(view := Some(Attached(p.symbol, p.view, p.id)), viewSince := s.attachingSince, attaching := None)
  }

  lemma CompletedIsGood(s: Session)
    requires Good(s) && s.attaching.Some? && s.attaching.value.pending == []
    ensures Good(Completed(s))
  {
  }

  /** A view or an attach that is dropped stays dropped. */
  lemma DroppingIsGood(start: Session, s: Session)
    requires Good(s) && Continued(start, s)
    ensures var t := s.(view := None); Good(t) && Continued(start, t)
    ensures var t := s.(attaching := None); Good(t) && Continued(start, t)
    ensures var t := s.(active := false); Good(t) && Continued(start, t)
  {
    DroppingContinues(s);
    ContinuedFurther(start, s, s.(view := None));
    ContinuedFurther(start, s, s.(attaching := None));
    ContinuedFurther(start, s, s.(active := false));
    hide Continued, Follows;
  }

  lemma DroppingContinues(s: Session)
    ensures Continued(s, s.(view := None)) && Continued(s, s.(attaching := None)) && Continued(s, s.(active := false))
  {
    forall id: nat | IsAttaching(s.(view := None), id) || IsAttaching(s.(active := false), id)
      ensures IsAttaching(s, id) {}
  }

  /**
   * A view that attaches again only gets a new handle; one that is attached ends whatever other attach is in progress.
   */
  function Renewed(s: Session, v: View): Session {
    if s.attaching.Some? && s.attaching.value.view == v then
      s.(nextSymbol := s.nextSymbol + 1, attaching := Some(s.attaching.value.(symbol := s.nextSymbol)))
    else if s.view.Some? then
      s.(nextSymbol := s.nextSymbol + 1, attaching := None, view := Some(s.view.value.(symbol := s.nextSymbol)))
    else s
  }

  lemma RenewingIsGood(s: Session, v: View)
    requires Good(s)
    ensures Good(Renewed(s, v)) && Continued(s, Renewed(s, v))
    ensures !IsAttaching(Renewed(s, v), s.nextId)
    ensures (Renewed(s, v).view.Some? ==> Renewed(s, v).view.value.id != s.nextId)
  {
    hide Follows;
  }

  lemma StaysTheSame(s: Session)
    ensures Continued(s, s)
  {
  }

  lemma KeptOneMore(stream: seq<Text>, value: Text)
    ensures Kept(stream + [value], OUTPUT_LIMIT) == Appended(Kept(stream, OUTPUT_LIMIT), value, OUTPUT_LIMIT)
  {
    assert (stream + [value])[..|stream|] == stream;
  }

  /** The attach call with this id holds the stage, or has lost it for good. */
  ghost predicate CatchingUp(start: Session, s: Session, v: View, id: nat) {
    && start.nextId == id < s.nextId && Good(s) && Continued(start, s)
    && (s.view.Some? ==> s.view.value.id != id)
    && (IsAttaching(s, id) ==>
          && s.attaching.value.view == v && s.attachingSince == Since(|start.stream|, |Got(start, v)|))
  }

  lemma StartsToCatchUp(start: Session, v: View)
    requires Good(start) && (start.view.Some? ==> start.view.value.view != v)
    ensures Good(Begun(start, v, Kept(start.stream, OUTPUT_LIMIT)))
    ensures CatchingUp(start, Begun(start, v, Kept(start.stream, OUTPUT_LIMIT)), v, start.nextId)
  {
    hide Follows;
    BegunIsGood(start, v);
  }

  /** Whatever a view does, an attach in progress is where it was or over. */
  lemma ReactionKeepsCatchingUp(start: Session, s: Session, t: Session, v: View, id: nat)
    requires CatchingUp(start, s, v, id) && Good(t) && Continued(s, t)
    ensures CatchingUp(start, t, v, id)
    ensures IsAttaching(t, id) ==>
      IsAttaching(s, id) && t.inFlight == s.inFlight && s.attaching.value.pending <= t.attaching.value.pending
  {
    hide Good;
    ContinuedFurther(start, s, t);
  }

  lemma ShowingKeepsCatchingUp(start: Session, s: Session, v: View, id: nat)
    requires CatchingUp(start, s, v, id) && IsAttaching(s, id) && s.attaching.value.pending != [] && !s.inFlight
    ensures Good(Shown(s)) && CatchingUp(start, Shown(s), v, id)
  {
    hide Good;
    ShownIsGood(s);
  }

  lemma TakingKeepsCatchingUp(start: Session, s: Session, v: View, id: nat)
    requires CatchingUp(start, s, v, id) && IsAttaching(s, id) && s.inFlight
    ensures s.attaching.value.pending != [] && Good(Taken(s)) && CatchingUp(start, Taken(s), v, id)
  {
    TakenIsGood(s);
    hide Good;
  }

  /** Having caught up means having the history and all that came after. */
  lemma CaughtUp(start: Session, s: Session, v: View, id: nat)
    requires CatchingUp(start, s, v, id) && IsAttaching(s, id) && s.attaching.value.pending == []
    ensures s.attaching.value.view == v && Good(Completed(s)) && Continued(start, Completed(s))
    ensures Got(s, v) == Got(start, v) + [Kept(start.stream, OUTPUT_LIMIT)] + s.stream[|start.stream|..]
  {
    CompletedIsGood(s);
    var mark := |Got(start, v)|;
    assert Got(s, v) == Got(s, v)[..mark] + [Got(s, v)[mark]] + Got(s, v)[mark + 1..];
    assert s.stream[..|start.stream|] == start.stream;
    assert Got(s, v)[mark + 1..] + [] == Got(s, v)[mark + 1..];
  }

  lemma FreshIds(s: Session)
    requires Good(s)
    ensures !IsAttaching(s, s.nextId)
    ensures s.view.Some? ==> s.view.value.id != s.nextId && s.view.value.symbol != s.nextSymbol
    ensures s.view.Some? && s.attaching.Some? ==> s.view.value.view != s.attaching.value.view
  {
  }

  lemma CatchingUpContinues(start: Session, s: Session, v: View, id: nat)
    requires CatchingUp(start, s, v, id)
    ensures Good(s) && Continued(start, s) && (s.view.Some? ==> s.view.value.id != id)
  {
  }

  lemma ShownSpelledOut(start: Session, s: Session, v: View, id: nat)
    requires CatchingUp(start, s, v, id) && IsAttaching(s, id)
    ensures s.attaching.value.view == v
  {
  }

  lemma StreamGrows(s: Session, t: Session)
    requires Continued(s, t)
    ensures s.stream <= t.stream
  {
  }

  class RuntimeTerminalService {
    var active: bool
    var history: Text
    var historyBytes: nat
    var view: Option<Attached>
    var attaching: Option<Pending>
    var nextSymbol: nat
    var nextId: nat
    ghost var stream: seq<Text>
    ghost var received: map<View, seq<Text>>
    ghost var viewSince: Since
    ghost var attachingSince: Since
    ghost var inFlight: bool

    ghost function Now(): Session
      reads this
    {
      Session(active, view, attaching, nextSymbol, nextId, stream, received, viewSince, attachingSince, inFlight)
    }

    ghost predicate Valid()
      reads this
    {
      history == Kept(stream, OUTPUT_LIMIT) && historyBytes == Utf8Length(history) && Good(Now())
    }

    constructor ()
      ensures Valid() && active && view == None && attaching == None && stream == [] && received == map[]
    {
      active, history, historyBytes, view, attaching, nextSymbol, nextId := true, [], 0, None, None, 0, 0;
      stream, received, inFlight := [], map[], false;
    }

    /** Remembers one decoded value, queues it and gives it to the attached view; the reply is what that view does. */
    method Write(value: Text, reply: Script) returns (r: Outcome)
      requires Valid()
      modifies this
      ensures Valid() && Continued(old(Now()), Now())
      ensures !old(active) ==> r == Threw && Now() == old(Now())
      ensures old(active) && value == [] ==> r.Returned? && Now() == old(Now())
      ensures old(active) && value != [] ==> old(stream) + [value] <= stream
      ensures old(active) && value != [] ==> (r.Threw? <==> old(view.Some?) && reply.throws)
      ensures r.Threw? && old(active) && view.Some? ==> view.value.symbol != old(view.value.symbol)
      ensures old(active) && value != [] && reply.calls.NoCalls? ==>
        var written := Written(old(Now()), value);
        Now() == if reply.throws then written.(view := None) else written
      ensures OnlyWrites(reply.calls) ==> SameAttach(old(Now()), Now()) && OnlyViewHeard(old(Now()), Now())
      ensures old(active && view.Some?) && value != [] ==>
        match SuccessorIn(reply.calls)
        case None => true
        case Some(w) => old(!Knows(w)) ==> view == Some(Attached(old(nextSymbol), w, old(nextId)))
      decreases reply, 1
    {
      hide Good, Continued, Kept, Utf8Length;
      ghost var start := Now();
      StaysTheSame(start);
      if !active { return Threw; }
      if value == [] { return Returned(0); }
      Record(value);
      if view.None? { return Returned(0); }
      var current := view.value;
      ghost var written := Now();
      FreshIds(written);
      var threw := React(reply);
      ContinuedFurther(start, written, Now());
      StreamGrows(written, Now());
      DroppingIsGood(start, Now());
      if threw && view.Some? && view.value.symbol == current.symbol { view := None; }
      return if threw then Threw else Returned(0);
    }

    method Record(value: Text)
      requires Valid()
      modifies this
      ensures Valid() && Now() == Written(old(Now()), value)
      ensures Continued(old(Now()), Now()) && stream == old(stream) + [value]
    {
      hide Good, Continued, Appended, Kept, Utf8Length;
      ghost var start := Now();
      history, historyBytes := AppendBounded(history, historyBytes, value, OUTPUT_LIMIT);
      KeptOneMore(stream, value);
      WrittenIsGood(start, value);
      if attaching.Some? { attaching := Some(attaching.value.(pending := attaching.value.pending + [value])); }
      stream := stream + [value];
      if view.Some? { received := Given(Now(), view.value.view, value).received; }
    }

    /**
     * Attaches a view: history first, then what was written meanwhile, then live.  A view that got as far as that has
     * the history of the moment it was attached and every value since, once and in order.
     */
    method Attach(v: View, replies: Replies) returns (r: Outcome)
      requires Valid()
      modifies this
      ensures Valid() && Continued(old(Now()), Now())
      ensures !old(active) ==> r == Threw && Now() == old(Now())
      ensures !IsAttaching(Now(), old(nextId)) || !active
      ensures view.Some? && view.value.id == old(nextId) ==>
        && r.Returned? && view.value.view == v && old(stream) <= stream
        && Got(Now(), v) == Got(old(Now()), v) + [old(history)] + stream[|old(stream)|..]
      ensures old(active) && old(!Knows(v)) && NeverThrows(replies) ==> r == Returned(old(nextSymbol))
      ensures old(active) && old(!Knows(v)) && IsQuiet(replies) ==>
        view == Some(Attached(old(nextSymbol), v, old(nextId)))
      ensures old(active) && old(!Knows(v)) && replies.Reply? && replies.first.throws ==> r == Threw
      ensures old(active) && old(!Knows(v)) && DisposesAtOnce(replies) ==>
        !active && Got(Now(), v) == Got(old(Now()), v) + [old(history)]
      ensures old(active) && old(Knows(v)) ==>
        r == Returned(old(nextSymbol)) && Now() == Renewed(old(Now()), v)
      ensures old(active) && old(Knows(v)) ==>
        && Knows(v) && (attaching.Some? && attaching.value.view == v ==> attaching.value.symbol == r.symbol)
        && (view.Some? && view.value.view == v ==> view.value.symbol == r.symbol && attaching.None?)
      decreases replies, 3
    {
      hide Good, Continued, CatchingUp, Kept, Utf8Length, NeverThrows, AllOnlyWrite, WritesThenDisposes;
      ghost var start := Now();
      StaysTheSame(start);
      FreshIds(start);
      if !active { return Threw; }
      var symbol := nextSymbol;
      if Knows(v) {
        Renew(v);
        return Returned(symbol);
      }
      var threw := AttachNew(v, replies);
      return if threw then Threw else Returned(symbol);
    }

    /** A view that is known only gets a new handle. */
    method Renew(v: View)
      requires Valid() && Knows(v)
      modifies this`nextSymbol, this`attaching, this`view
      ensures Valid() && Continued(old(Now()), Now()) && Now() == Renewed(old(Now()), v)
      ensures !IsAttaching(Now(), nextId) && (view.Some? ==> view.value.id != nextId)
      ensures Knows(v) && (attaching.Some? && attaching.value.view == v ==> attaching.value.symbol == old(nextSymbol))
      ensures IsAttached(v) ==> view.value.symbol == old(nextSymbol) && attaching.None?
    {
      hide Good, Continued;
      FreshIds(Now());
      RenewingIsGood(Now(), v);
      if attaching.Some? && attaching.value.view == v {
        attaching := Some(attaching.value.(symbol := nextSymbol));
      } else {
        attaching := None;
        view := Some(view.value.(symbol := nextSymbol));
      }
      nextSymbol := nextSymbol + 1;
    }

    method AttachNew(v: View, replies: Replies) returns (threw: bool)
      requires Valid() && active && !Knows(v)
      modifies this
      ensures Valid() && Continued(old(Now()), Now())
      ensures !IsAttaching(Now(), old(nextId)) || !active
      ensures view.Some? && view.value.id == old(nextId) ==>
        && !threw && view.value.view == v && old(stream) <= stream
        && Got(Now(), v) == Got(old(Now()), v) + [old(history)] + stream[|old(stream)|..]
      ensures NeverThrows(replies) ==> !threw
      ensures IsQuiet(replies) ==> view == Some(Attached(old(nextSymbol), v, old(nextId)))
      ensures replies.Reply? && replies.first.throws ==> threw
      ensures DisposesAtOnce(replies) ==> !active && Got(Now(), v) == Got(old(Now()), v) + [old(history)]
      decreases replies, 2
    {
      hide Good, Continued, CatchingUp, Kept, Utf8Length, NeverThrows, AllOnlyWrite, WritesThenDisposes;
      ghost var start := Now();
      FreshIds(start);
      var id := nextId;
      Begin(v);
      StartsToCatchUp(start, v);
      threw := PassOnPending(start, v, id, replies);
      Settle(start, v, id, threw);
    }

    predicate Undisturbed(wasActive: bool, id: nat, symbol: nat)
      reads this
    {
      active == wasActive && attaching.Some? && attaching.value.id == id && attaching.value.symbol == symbol
    }

    predicate IsAttached(v: View)
      reads this
    {
      view.Some? && view.value.view == v
    }

    /** The view is attached or catching up. */
    predicate Knows(v: View)
      reads this
    {
      (attaching.Some? && attaching.value.view == v) || IsAttached(v)
    }

    /** A new attach supersedes the one in progress, and gives its view the history. */
    method Begin(v: View)
      modifies this`nextSymbol, this`nextId, this`attaching, this`attachingSince, this`inFlight, this`received
      ensures Now() == Begun(old(Now()), v, history)
    {
      attachingSince, inFlight := Since(|stream|, |Got(Now(), v)|), false;
      attaching := Some(Pending(nextId, nextSymbol, v, []));
      nextId, nextSymbol := nextId + 1, nextSymbol + 1;
      received := Given(Now(), v, history).received;
    }

    /** Ends an attach: the view is attached unless it threw or was superseded. */
    method Settle(ghost start: Session, v: View, id: nat, threw: bool)
      requires Valid() && CatchingUp(start, Now(), v, id)
      requires !threw && active && IsAttaching(Now(), id) ==> attaching.value.pending == []
      modifies this`view, this`viewSince, this`attaching
      ensures Valid() && Continued(start, Now()) && (!IsAttaching(Now(), id) || (!threw && !active))
      ensures view.Some? && view.value.id == id ==>
        && !threw && view.value.view == v && start.stream <= stream
        && Got(Now(), v) == Got(start, v) + [Kept(start.stream, OUTPUT_LIMIT)] + stream[|start.stream|..]
      ensures old(active && !threw && IsAttaching(Now(), id)) ==>
        view == Some(Attached(old(attaching).value.symbol, v, id))
    {
      hide Good, Continued, CatchingUp, Kept, Utf8Length;
      CatchingUpContinues(start, Now(), v, id);
      DroppingIsGood(start, Now());
      StreamGrows(start, Now());
      if attaching.Some? && attaching.value.id == id {
        if threw {
          attaching := None;
        } else if active {
          CaughtUp(start, Now(), v, id);
          ghost var before := Now();
          view := Some(Attached(attaching.value.symbol, v, id));
          viewSince := attachingSince;
          attaching := None;
          assert Now() == Completed(before);
        }
      }
    }

    /** Lets the view react to the history, and then gives it one pending value after the other while it may go on. */
    method PassOnPending(ghost start: Session, v: View, id: nat, replies: Replies) returns (threw: bool)
      requires Valid() && CatchingUp(start, Now(), v, id) && IsAttaching(Now(), id) && !inFlight
      modifies this
      ensures Valid() && CatchingUp(start, Now(), v, id)
      ensures !threw && active && IsAttaching(Now(), id) ==> attaching.value.pending == []
      ensures NeverThrows(replies) ==> !threw
      ensures replies.Reply? && replies.first.throws ==> threw
      ensures DisposesAtOnce(replies) && old(!IsAttached(v)) ==> !active && Got(Now(), v) == Got(old(Now()), v)
      ensures IsQuiet(replies) ==>
        Undisturbed(old(active), id, old(attaching).value.symbol)
      decreases replies, 1
    {
      hide Good, Continued, CatchingUp, Kept, Utf8Length;
      var rest := replies;
      threw := false;
      if rest.Reply? {
        ghost var before := Now();
        threw := React(rest.first);
        rest := rest.rest;
        ReactionKeepsCatchingUp(start, before, Now(), v, id);
      }
      while !threw && active && attaching.Some? && attaching.value.id == id && attaching.value.pending != []
        invariant Valid() && CatchingUp(start, Now(), v, id) && (rest == replies || rest < replies)
        invariant !threw && IsAttaching(Now(), id) ==> !inFlight
        invariant NeverThrows(replies) ==> !threw && NeverThrows(rest)
        invariant DisposesAtOnce(replies) && old(!IsAttached(v)) ==> !active && Got(Now(), v) == Got(old(Now()), v)
        invariant replies.Reply? && replies.first.throws ==> threw
        invariant AllOnlyWrite(replies) ==> AllOnlyWrite(rest)
        invariant IsQuiet(replies) ==>
          Undisturbed(old(active), id, old(attaching).value.symbol)
        decreases !threw, rest, if attaching.Some? then |attaching.value.pending| else 0
      {
        threw, rest := ShowFirst(start, v, id, rest);
      }
    }

    /** Gives the view that catches up its first pending value. */
    method ShowFirst(ghost start: Session, v: View, id: nat, replies: Replies) returns (threw: bool, rest: Replies)
      requires Valid() && CatchingUp(start, Now(), v, id) && !inFlight
      requires attaching.Some? && attaching.value.id == id && attaching.value.pending != []
      modifies this
      ensures Valid() && CatchingUp(start, Now(), v, id) && (!threw && IsAttaching(Now(), id) ==> !inFlight)
      ensures if replies.Reply? then rest == replies.rest else
        && rest == replies && !threw && active == old(active)
        && attaching.Some? && attaching.value == old(attaching).value.(pending := old(attaching).value.pending[1..])
      ensures replies.Reply? ==> threw == replies.first.throws
      ensures AllOnlyWrite(replies) ==> SameAttach(old(Now()), Now())
      decreases replies, 0
    {
      hide Good, Continued, CatchingUp, Kept, Utf8Length;
      ShowingKeepsCatchingUp(start, Now(), v, id);
      ShownSpelledOut(start, Now(), v, id);
      inFlight := true;
      received := Given(Now(), v, attaching.value.pending[0]).received;
      ghost var shown := Now();
      assert shown == Shown(old(Now()));
      threw, rest := false, replies;
      if replies.Reply? {
        threw := React(replies.first);
        rest := replies.rest;
        ReactionKeepsCatchingUp(start, shown, Now(), v, id);
      }
      if !threw && attaching.Some? && attaching.value.id == id {
        TakingKeepsCatchingUp(start, Now(), v, id);
        attaching := Some(attaching.value.(pending := attaching.value.pending[1..]));
        inFlight := false;
      }
    }

    /** A view reacts to a write: its calls one after the other, each of which may throw without stopping the view. */
    method React(script: Script) returns (threw: bool)
      requires Valid()
      modifies this
      ensures Valid() && Continued(old(Now()), Now()) && threw == script.throws
      ensures script.calls.NoCalls? ==> Now() == old(Now())
      ensures OnlyWrites(script.calls) ==> SameAttach(old(Now()), Now()) && OnlyViewHeard(old(Now()), Now())
      ensures WritesThenDisposes(script.calls) ==> !active && OnlyViewHeard(old(Now()), Now())
      ensures old(active) ==>
        match SuccessorIn(script.calls)
        case None => true
        case Some(w) => old(!Knows(w)) ==> view == Some(Attached(old(nextSymbol), w, old(nextId)))
      decreases script, 0
    {
      Run(script.calls);
      return script.throws;
    }

    method Run(calls: Calls)
      requires Valid()
      modifies this
      ensures Valid() && Continued(old(Now()), Now())
      ensures calls.NoCalls? ==> Now() == old(Now())
      ensures OnlyWrites(calls) ==> SameAttach(old(Now()), Now()) && OnlyViewHeard(old(Now()), Now())
      ensures WritesThenDisposes(calls) ==> !active && OnlyViewHeard(old(Now()), Now())
      ensures old(active) ==>
        match SuccessorIn(calls)
        case None => true
        case Some(w) => old(!Knows(w)) ==> view == Some(Attached(old(nextSymbol), w, old(nextId)))
      decreases calls, 0
    {
      hide Good, Continued, Kept, Utf8Length;
      ghost var start := Now();
      StaysTheSame(start);
      match calls
      case NoCalls =>
      case Then(call, rest) =>
        Perform(call);
        ghost var between := Now();
        Run(rest);
        ContinuedFurther(start, between, Now());
    }

    method Perform(call: Call)
      requires Valid()
      modifies this
      ensures Valid() && Continued(old(Now()), Now())
      ensures call.WriteCall? && OnlyWrites(call.reply.calls) ==>
        SameAttach(old(Now()), Now()) && OnlyViewHeard(old(Now()), Now())
      ensures call.DisposeCall? ==> Now() == old(Now()).(active := false)
      ensures old(active) && call.AttachCall? && old(!Knows(call.view)) && IsQuiet(call.replies) ==>
        view == Some(Attached(old(nextSymbol), call.view, old(nextId)))
      decreases call, 0
    {
      hide Good, Continued, Kept, Utf8Length;
      match call
      case WriteCall(value, reply) => var _ := Write(value, reply);
      case AttachCall(v, replies) => var _ := Attach(v, replies);
      case DetachCall(symbol) => Detach(symbol);
      case DisposeCall => Dispose();
    }

    method Detach(symbol: nat)
      requires Valid()
      modifies this`attaching, this`view
      ensures Valid() && Continued(old(Now()), Now())
      ensures attaching ==
        if old(attaching).Some? && old(attaching).value.symbol == symbol then None else old(attaching)
      ensures view == if old(view).Some? && old(view).value.symbol == symbol then None else old(view)
    {
      hide Good, Continued, Kept, Utf8Length;
      ghost var start := Now();
      StaysTheSame(start);
      DroppingIsGood(start, start);
      if attaching.Some? && attaching.value.symbol == symbol { attaching := None; }
      DroppingIsGood(start, Now());
      if view.Some? && view.value.symbol == symbol { view := None; }
    }

    method Dispose()
      requires Valid()
      modifies this`active
      ensures Valid() && Continued(old(Now()), Now()) && Now() == old(Now()).(active := false)
    {
      hide Good, Continued, Kept, Utf8Length;
      StaysTheSame(Now());
      DroppingIsGood(Now(), Now());
      active := false;
    }
  }
}
