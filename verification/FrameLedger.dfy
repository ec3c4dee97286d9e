/**
 * The page's socket traffic, read off its frames (`frameLedger` in scripts/browser-page.ts):
 * which calls the page asked, which were answered, which sockets are gone, and the waiters
 * resolved once the page is quiet.
 */
module FrameLedger {
  import opened Wrappers

  type Socket = string

  /** Ids restart per socket, so a call is keyed by both. */
  datatype Key = Key(socket: Socket, id: string)

  /** A decoded frame; a payload that does not decode is `None`. */
  datatype Frame = Frame(kind: string, id: Option<string>, call: Option<string>, done: Option<bool>)

  predicate IsAsk(f: Option<Frame>) {
    f.Some? && f.value.kind == "rpc" && f.value.id.Some? && f.value.call.Some?
  }

  /** Chunks of a streamed answer carry `done: false`; only the last frame ends the ask. */
  predicate IsAnswer(f: Frame) {
    f.kind == "rpc" && f.id.Some? && f.done != Some(false)
  }

  predicate EndsTurn(f: Frame) {
    f.kind == "cf_agent_use_chat_response" && f.done == Some(true)
  }

  // ------------------------------------------------------------------- state

  datatype Wants = Arrival(kind: string) | TurnClosed | QuietAfter(methods: seq<string>)

  datatype Traffic = Traffic(asked: map<Key, string>, answered: set<Key>, arrived: set<string>, closed: bool,
                             sockets: set<Socket>, retired: set<Socket>)

  datatype Ledger = Ledger(traffic: Traffic, waiting: seq<Wants>, woken: seq<Wants>)

  const EMPTY := Ledger(Traffic(map[], {}, {}, false, {}, {}), [], [])

  /** Every named method has an answered ask, and nothing asked is unanswered. */
  predicate Quiet(t: Traffic, methods: seq<string>) {
    && (forall m :: m in methods ==> exists k :: k in t.asked && t.asked[k] == m && k in t.answered)
    && (forall k :: k in t.asked ==> k in t.answered)
  }

  predicate Ready(t: Traffic, w: Wants) {
    match w
    case Arrival(kind) => kind in t.arrived
    case TurnClosed => t.closed
    case QuietAfter(methods) => Quiet(t, methods)
  }

  function Keep(ws: seq<Wants>, t: Traffic, ready: bool): seq<Wants> {
    if ws == [] then [] else (if Ready(t, ws[0]) == ready then [ws[0]] else []) + Keep(ws[1..], t, ready)
  }

  lemma KeepNext(ws: seq<Wants>, i: nat, t: Traffic, ready: bool, kept: seq<Wants>)
    requires i < |ws|
    ensures kept + Keep(ws[i..], t, ready)
         == (if Ready(t, ws[i]) == ready then kept + [ws[i]] else kept) + Keep(ws[i + 1..], t, ready)
  {
    assert ws[i..][0] == ws[i] && ws[i..][1..] == ws[i + 1..];
    assert kept + ([ws[i]] + Keep(ws[i + 1..], t, ready)) == kept + [ws[i]] + Keep(ws[i + 1..], t, ready);
  }

  /** The waiters that are ready are resolved and leave the list. */
  function Checked(l: Ledger): Ledger {
    l.(waiting := Keep(l.waiting, l.traffic, false), woken := l.woken + Keep(l.waiting, l.traffic, true))
  }

  datatype Event =
    | Created(socket: Socket)
    | Sent(socket: Socket, frame: Option<Frame>)
    | Received(socket: Socket, frame: Option<Frame>)
    | Closed(socket: Socket)
    | Navigated(top: bool)
    | Restarted
    | Awaited(wants: Wants)

  function AfterSent(t: Traffic, s: Socket, f: Option<Frame>): Traffic {
    if s in t.retired then t
    else
      var seen := t.(sockets := t.sockets + {s});
      if IsAsk(f) then seen.(asked := t.asked[Key(s, f.value.id.value) := f.value.call.value]) else seen
  }

  function AfterReceived(t: Traffic, s: Socket, f: Frame): Traffic {
    t.(arrived := t.arrived + {f.kind},
       closed := t.closed || EndsTurn(f),
       answered := if IsAnswer(f) then t.answered + {Key(s, f.id.value)} else t.answered)
  }

  function AfterClosed(t: Traffic, s: Socket): Traffic {
    t.(retired := t.retired + {s},
       asked := map k | k in t.asked && !(k.socket == s && k !in t.answered) :: t.asked[k])
  }

  function AfterNavigated(t: Traffic): Traffic {
    var retired := t.retired + t.sockets;
    t.(retired := retired,
       asked := map k | k in t.asked && k.socket !in retired :: t.asked[k],
       answered := set k | k in t.answered && !(k in t.asked && k.socket in retired))
  }

  function Next(t: Traffic, e: Event): Traffic {
    match e
    case Created(s) => t.(sockets := t.sockets + {s})
    case Sent(s, f) => AfterSent(t, s, f)
    case Received(s, f) => if s in t.retired || f.None? then t else AfterReceived(t, s, f.value)
    case Closed(s) => AfterClosed(t, s)
    case Navigated(top) => if top then AfterNavigated(t) else t
    case Restarted => t.(asked := map[], answered := {}, arrived := {})
    case Awaited(_) => t
  }

  /** The events whose handlers look at the waiters: neither a sent frame nor a restart does. */
  predicate Looks(t: Traffic, e: Event) {
    match e
    case Received(s, f) => !(s in t.retired || f.None?)
    case Closed(_) => true
    case Navigated(top) => top
    case Awaited(_) => true
    case _ => false
  }

  function After(l: Ledger, e: Event): Ledger {
    var moved := Ledger(Next(l.traffic, e), if e.Awaited? then l.waiting + [e.wants] else l.waiting, l.woken);
    if Looks(l.traffic, e) then Checked(moved) else moved
  }

  /** The ledger itself: the maps and sets its event handlers change in place. */
  class Recorder {
    var asked: map<Key, string>
    var answered: set<Key>
    var arrived: set<string>
    var closed: bool
    var sockets: set<Socket>
    var retired: set<Socket>
    var waiting: seq<Wants>
    var woken: seq<Wants>

    ghost function Contents(): Ledger
      reads this
    {
      Ledger(Traffic(asked, answered, arrived, closed, sockets, retired), waiting, woken)
    }

    constructor ()
      ensures Contents() == EMPTY
    {
      asked, answered, arrived, closed := map[], {}, {}, false;
      sockets, retired, waiting, woken := {}, {}, [], [];
    }

    method IsQuiet(methods: seq<string>) returns (quiet: bool)
      ensures quiet == Quiet(Contents().traffic, methods)
    {
      quiet := (forall m :: m in methods ==> exists k :: k in asked && asked[k] == m && k in answered)
               && (forall k :: k in asked ==> k in answered);
    }

    method Check()
      modifies this`waiting, this`woken
      ensures Contents() == Checked(old(Contents()))
    {
      var left: seq<Wants> := [];
      ghost var t := Contents().traffic;
      for i := 0 to |waiting|
        invariant waiting == old(waiting) && t == Contents().traffic
        invariant left + Keep(waiting[i..], t, false) == Keep(waiting, t, false)
        invariant woken + Keep(waiting[i..], t, true) == old(woken) + Keep(waiting, t, true)
      {
        KeepNext(waiting, i, t, false, left);
        KeepNext(waiting, i, t, true, woken);
        var ready := false;
        match waiting[i] {
          case Arrival(kind) => ready := kind in arrived;
          case TurnClosed => ready := closed;
          case QuietAfter(methods) => ready := IsQuiet(methods);
        }
        assert ready == Ready(t, waiting[i]);
        if ready {
          woken := woken + [waiting[i]];
        } else {
          left := left + [waiting[i]];
        }
      }
      assert waiting[|waiting|..] == [];
      waiting := left;
    }

    method OnCreated(s: Socket)
      modifies this
      ensures Contents() == After(old(Contents()), Created(s))
      ensures Contents() == old(Contents()).(traffic := old(Contents()).traffic.(sockets := old(sockets) + {s}))
    {
      sockets := sockets + {s};
    }

    method OnSent(s: Socket, f: Option<Frame>)
      modifies this
      ensures Contents() == After(old(Contents()), Sent(s, f))
      ensures s in old(retired) ==> Contents() == old(Contents())
      ensures s !in old(retired) ==>
                && sockets == old(sockets) + {s} && answered == old(answered) && arrived == old(arrived) && closed == old(closed)
                && retired == old(retired) && waiting == old(waiting) && woken == old(woken)
                && asked == if f.Some? && f.value.kind == "rpc" && f.value.id.Some? && f.value.call.Some?
                            then old(asked)[Key(s, f.value.id.value) := f.value.call.value] else old(asked)
    {
      if s in retired {
        return;
      }
      sockets := sockets + {s};
      if IsAsk(f) {
        asked := asked[Key(s, f.value.id.value) := f.value.call.value];
      }
    }

    method OnReceived(s: Socket, f: Option<Frame>)
      modifies this
      ensures Contents() == After(old(Contents()), Received(s, f))
      ensures s in old(retired) ==> Contents() == old(Contents())
      ensures s !in old(retired) && f.Some? ==>
                && asked == old(asked) && sockets == old(sockets) && retired == old(retired)
                && arrived == old(arrived) + {f.value.kind}
                && (closed <==> old(closed) || (f.value.kind == "cf_agent_use_chat_response" && f.value.done == Some(true)))
                && answered == if f.value.kind == "rpc" && f.value.id.Some? && f.value.done != Some(false)
                               then old(answered) + {Key(s, f.value.id.value)} else old(answered)
    {
      if s in retired || f.None? {
        return;
      }
      arrived := arrived + {f.value.kind};
      closed := closed || EndsTurn(f.value);
      if IsAnswer(f.value) {
        answered := answered + {Key(s, f.value.id.value)};
      }
      Check();
    }

    method OnClosed(s: Socket)
      modifies this
      ensures Contents() == After(old(Contents()), Closed(s))
      ensures retired == old(retired) + {s} && sockets == old(sockets) && answered == old(answered)
      ensures arrived == old(arrived) && closed == old(closed)
      ensures forall k :: k in asked <==> k in old(asked) && (k.socket != s || k in old(answered))
      ensures forall k :: k in asked ==> asked[k] == old(asked)[k]
    {
      retired := retired + {s};
      asked := map k | k in asked && !(k.socket == s && k !in answered) :: asked[k];
      Check();
    }

    method OnNavigated(top: bool)
      modifies this
      ensures Contents() == After(old(Contents()), Navigated(top))
      ensures !top ==> Contents() == old(Contents())
      ensures top ==>
                && retired == old(retired) + old(sockets) && sockets == old(sockets) && arrived == old(arrived) && closed == old(closed)
                && (forall k :: k in asked <==> k in old(asked) && k.socket !in retired)
                && (forall k :: k in asked ==> asked[k] == old(asked)[k])
                && (forall k :: k in answered <==> k in old(answered) && (k !in old(asked) || k.socket !in retired))
    {
      if !top {
        return;
      }
      retired := retired + sockets;
      answered := set k | k in answered && !(k in asked && k.socket in retired);
      asked := map k | k in asked && k.socket !in retired :: asked[k];
      Check();
    }

    method Restart()
      modifies this
      ensures Contents() == After(old(Contents()), Restarted)
      ensures asked == map[] && answered == {} && arrived == {} && closed == old(closed)
      ensures sockets == old(sockets) && retired == old(retired) && waiting == old(waiting) && woken == old(woken)
    {
      asked, answered, arrived := map[], {}, {};
    }

    method Wait(w: Wants)
      modifies this
      ensures Contents() == After(old(Contents()), Awaited(w))
    {
      waiting := waiting + [w];
      Check();
    }
  }

  // ----------------------------------------------------------- the history form

  /** The ledger after a whole history of events. */
  function Run(h: seq<Event>): Ledger {
    if h == [] then EMPTY else After(Run(h[..|h| - 1]), h[|h| - 1])
  }

  predicate Mentions(e: Event, s: Socket) {
    (e.Created? || e.Sent?) && e.socket == s
  }

  /** A socket is gone once it closed, or once the page navigated after the socket was seen. */
  ghost predicate Gone(h: seq<Event>, s: Socket) {
    exists k :: 0 <= k < |h| && GoneAt(h, k, s)
  }

  ghost predicate GoneAt(h: seq<Event>, k: nat, s: Socket)
    requires k < |h|
  {
    h[k] == Closed(s) || (h[k] == Navigated(true) && exists j :: 0 <= j < k && Mentions(h[j], s))
  }

  predicate Resets(e: Event) {
    e == Restarted || e == Navigated(true)
  }

  /** Event `k` came after the last restart or navigation. */
  ghost predicate Current(h: seq<Event>, k: nat) {
    forall j :: k < j < |h| ==> !Resets(h[j])
  }

  predicate AskOf(e: Event, key: Key, m: string) {
    e.Sent? && IsAsk(e.frame) && key == Key(e.socket, e.frame.value.id.value) && m == e.frame.value.call.value
  }

  predicate AnswerOf(e: Event, key: Key) {
    e.Received? && e.frame.Some? && IsAnswer(e.frame.value) && key == Key(e.socket, e.frame.value.id.value)
  }

  /** Since the last restart or navigation, event `k` asked `m` under `key` on a live socket. */
  ghost predicate Asked(h: seq<Event>, k: nat, key: Key, m: string) {
    k < |h| && Current(h, k) && AskOf(h[k], key, m) && !Gone(h[..k], key.socket)
  }

  /** After event `k` the call was answered on its socket while the socket was live. */
  ghost predicate Answered(h: seq<Event>, k: nat, key: Key) {
    exists j: nat :: k < j < |h| && AnsweredAt(h, j, key)
  }

  ghost predicate AnsweredAt(h: seq<Event>, j: nat, key: Key)
    requires j < |h|
  {
    AnswerOf(h[j], key) && !Gone(h[..j], key.socket)
  }

  ghost predicate QuietInHistory(h: seq<Event>, methods: seq<string>) {
    && (forall m :: m in methods ==> exists k, key :: Asked(h, k, key, m) && Answered(h, k, key))
    && (forall k, key, m :: Asked(h, k, key, m) ==> Answered(h, k, key) || Gone(h, key.socket))
  }

  predicate Asks(e: Event, key: Key) {
    e.Sent? && IsAsk(e.frame) && key == Key(e.socket, e.frame.value.id.value)
  }

  predicate Uses(e: Event, key: Key) {
    Asks(e, key) || AnswerOf(e, key)
  }

  /** An ask uses an id its socket has not used before, in an ask or an answer. */
  ghost predicate FreshIds(h: seq<Event>) {
    forall i, j, key :: 0 <= i < j < |h| && Asks(h[j], key) ==> !Uses(h[i], key)
  }

  // ------------------------------------- the fields, read off the history

  ghost predicate Mentioned(h: seq<Event>, s: Socket) {
    exists j :: 0 <= j < |h| && Mentions(h[j], s)
  }

  /** The ask at `k` is one the ledger still holds: answered, or on a live socket. */
  ghost predicate Held(h: seq<Event>, k: nat, key: Key, m: string) {
    Asked(h, k, key, m) && (Answered(h, k, key) || !Gone(h, key.socket))
  }

  ghost predicate SocketsMatch(h: seq<Event>, t: Traffic) {
    && (forall s :: s in t.retired <==> Gone(h, s))
    && (forall s :: s in t.sockets ==> Mentioned(h, s))
    && (forall s :: Mentioned(h, s) ==> s in t.sockets || s in t.retired)
  }

  ghost predicate AsksMatch(h: seq<Event>, t: Traffic) {
    && (forall k, key, m :: Held(h, k, key, m) ==>
          key in t.asked && t.asked[key] == m && (key in t.answered <==> Answered(h, k, key)))
    && (forall key :: key in t.asked ==> key.socket in t.sockets && exists k :: Held(h, k, key, t.asked[key]))
    && (forall key :: key in t.answered ==> exists j :: 0 <= j < |h| && AnswerOf(h[j], key))
  }

  lemma GoneStep(h: seq<Event>, e: Event, s: Socket)
    ensures Gone(h + [e], s) <==> Gone(h, s) || e == Closed(s) || (e == Navigated(true) && Mentioned(h, s))
  {
    var g := h + [e];
    if Gone(h, s) {
      var k :| 0 <= k < |h| && GoneAt(h, k, s);
      assert GoneAt(g, k, s) by {
        if h[k] == Navigated(true) {
          var j :| 0 <= j < k && Mentions(h[j], s);
          assert Mentions(g[j], s);
        }
      }
    }
    if Gone(g, s) {
      var k :| 0 <= k < |g| && GoneAt(g, k, s);
      if k < |h| {
        assert GoneAt(h, k, s) by {
          if g[k] == Navigated(true) {
            var j :| 0 <= j < k && Mentions(g[j], s);
            assert Mentions(h[j], s);
          }
        }
      } else if g[k] == Navigated(true) {
        var j :| 0 <= j < k && Mentions(g[j], s);
        assert Mentions(h[j], s);
      }
    }
    if e == Closed(s) {
      assert GoneAt(g, |h|, s);
    }
    if e == Navigated(true) && Mentioned(h, s) {
      var j :| 0 <= j < |h| && Mentions(h[j], s);
      assert Mentions(g[j], s);
      assert GoneAt(g, |h|, s);
    }
  }

  lemma AskedStep(h: seq<Event>, e: Event, k: nat, key: Key, m: string)
    ensures Asked(h + [e], k, key, m)
       <==> (Asked(h, k, key, m) && !Resets(e)) || (k == |h| && AskOf(e, key, m) && !Gone(h, key.socket))
  {
    var g := h + [e];
    if k < |h| {
      assert g[..k] == h[..k];
      assert g[|h|] == e;
      if Current(h, k) && !Resets(e) {
        assert Current(g, k);
      }
      if Current(g, k) {
        forall j | k < j < |h| ensures !Resets(h[j]) { assert g[j] == h[j]; }
      }
    } else if k == |h| {
      assert g[..k] == h;
    }
  }

  lemma AnsweredAtStep(h: seq<Event>, e: Event, j: nat, key: Key)
    requires j <= |h|
    ensures AnsweredAt(h + [e], j, key) <==> if j < |h| then AnsweredAt(h, j, key) else AnswerOf(e, key) && !Gone(h, key.socket)
  {
    var g := h + [e];
    assert g[..j] == h[..j] && g[|h|] == e && h[..|h|] == h;
  }

  lemma AnsweredStep(h: seq<Event>, e: Event, k: nat, key: Key)
    requires k < |h|
    ensures Answered(h + [e], k, key) <==> Answered(h, k, key) || (AnswerOf(e, key) && !Gone(h, key.socket))
  {
    var g := h + [e];
    if Answered(g, k, key) {
      var j: nat :| k < j < |g| && AnsweredAt(g, j, key);
      AnsweredAtStep(h, e, j, key);
    }
    if Answered(h, k, key) {
      var j: nat :| k < j < |h| && AnsweredAt(h, j, key);
      AnsweredAtStep(h, e, j, key);
      assert AnsweredAt(g, j, key);
    }
    if AnswerOf(e, key) && !Gone(h, key.socket) {
      AnsweredAtStep(h, e, |h|, key);
      assert AnsweredAt(g, |h|, key);
    }
  }

  lemma SocketsStep(h: seq<Event>, e: Event, t: Traffic)
    requires SocketsMatch(h, t)
    ensures SocketsMatch(h + [e], Next(t, e))
  {
    var g := h + [e];
    forall s
      ensures Gone(g, s) <==> Gone(h, s) || e == Closed(s) || (e == Navigated(true) && Mentioned(h, s))
      ensures Mentioned(g, s) <==> Mentioned(h, s) || Mentions(e, s)
    {
      GoneStep(h, e, s);
      if Mentioned(h, s) {
        var j :| 0 <= j < |h| && Mentions(h[j], s);
        assert Mentions(g[j], s);
      }
      if Mentioned(g, s) {
        var j :| 0 <= j < |g| && Mentions(g[j], s);
        assert j < |h| ==> Mentions(h[j], s);
      }
      if Mentions(e, s) {
        assert Mentions(g[|h|], s);
      }
    }
  }

  /** What one event does to the asks the ledger holds. */
  lemma HeldStep(h: seq<Event>, e: Event, k: nat, key: Key, m: string)
    requires k < |h|
    ensures Held(h + [e], k, key, m)
       <==> Held(h, k, key, m) && !Resets(e) && !(e == Closed(key.socket) && !Answered(h, k, key))
    ensures Answered(h + [e], k, key) <==> Answered(h, k, key) || (AnswerOf(e, key) && !Gone(h, key.socket))
  {
    AskedStep(h, e, k, key, m);
    AnsweredStep(h, e, k, key);
    GoneStep(h, e, key.socket);
  }

  lemma HeldNow(h: seq<Event>, e: Event, key: Key, m: string)
    ensures Held(h + [e], |h|, key, m) <==> AskOf(e, key, m) && !Gone(h, key.socket)
    ensures !Answered(h + [e], |h|, key)
  {
    AskedStep(h, e, |h|, key, m);
    GoneStep(h, e, key.socket);
  }

  lemma FreshNow(h: seq<Event>, e: Event, key: Key)
    requires FreshIds(h + [e]) && Asks(e, key)
    ensures forall j :: 0 <= j < |h| ==> !Uses(h[j], key)
  {
    var g := h + [e];
    assert g[|h|] == e;
    forall j | 0 <= j < |h| ensures !Uses(h[j], key) {
      assert g[j] == h[j];
    }
  }

  /** The three parts of `AsksMatch`, for one event. */
  lemma HeldIsAsked(h: seq<Event>, e: Event, t: Traffic, k: nat, key: Key, m: string)
    requires FreshIds(h + [e]) && SocketsMatch(h, t) && AsksMatch(h, t)
    requires Held(h + [e], k, key, m)
    ensures var u := Next(t, e);
      key in u.asked && u.asked[key] == m && (key in u.answered <==> Answered(h + [e], k, key))
  {
    if k < |h| {
      assert !Asks(e, key) by {
        assert Asks((h + [e])[k], key) && (h + [e])[|h|] == e;
      }
      OldAskStays(h, e, t, k, key, m);
    } else {
      HeldNow(h, e, key, m);
      assert Asks(e, key) by { assert (h + [e])[|h|] == e; }
      FreshNow(h, e, key);
    }
  }

  lemma OldAskStays(h: seq<Event>, e: Event, t: Traffic, k: nat, key: Key, m: string)
    requires SocketsMatch(h, t) && AsksMatch(h, t)
    requires k < |h| && Held(h + [e], k, key, m) && !Asks(e, key)
    ensures var u := Next(t, e);
      key in u.asked && u.asked[key] == m && (key in u.answered <==> Answered(h + [e], k, key))
  {
    HeldStep(h, e, k, key, m);
  }

  lemma AskedIsHeld(h: seq<Event>, e: Event, t: Traffic, key: Key)
    requires FreshIds(h + [e]) && SocketsMatch(h, t) && AsksMatch(h, t)
    requires key in Next(t, e).asked
    ensures key.socket in Next(t, e).sockets
    ensures exists k :: Held(h + [e], k, key, Next(t, e).asked[key])
  {
    var m := Next(t, e).asked[key];
    if AskOf(e, key, m) && key.socket !in t.retired {
      HeldNow(h, e, key, m);
    } else {
      assert key in t.asked && m == t.asked[key];
      var k :| Held(h, k, key, m);
      StillHeld(h, e, t, k, key, m);
    }
  }

  lemma StillHeld(h: seq<Event>, e: Event, t: Traffic, k: nat, key: Key, m: string)
    requires SocketsMatch(h, t) && AsksMatch(h, t) && Held(h, k, key, m)
    requires key in Next(t, e).asked && key in t.asked
    ensures Held(h + [e], k, key, m)
  {
    assert key.socket in t.sockets;
    HeldStep(h, e, k, key, m);
  }

  lemma AsksStep(h: seq<Event>, e: Event, t: Traffic)
    requires FreshIds(h + [e]) && SocketsMatch(h, t) && AsksMatch(h, t)
    ensures AsksMatch(h + [e], Next(t, e))
  {
    var g, u := h + [e], Next(t, e);
    forall k, key, m | Held(g, k, key, m)
      ensures key in u.asked && u.asked[key] == m && (key in u.answered <==> Answered(g, k, key))
    {
      HeldIsAsked(h, e, t, k, key, m);
    }
    forall key | key in u.asked
      ensures key.socket in u.sockets && exists k :: Held(g, k, key, u.asked[key])
    {
      AskedIsHeld(h, e, t, key);
    }
    forall key | key in u.answered
      ensures exists j :: 0 <= j < |g| && AnswerOf(g[j], key)
    {
      if key in t.answered {
        var j :| 0 <= j < |h| && AnswerOf(h[j], key);
        assert AnswerOf(g[j], key);
      } else {
        assert AnswerOf(g[|h|], key);
      }
    }
  }

  lemma {:induction false} FieldsMatchHistory(h: seq<Event>)
    requires FreshIds(h)
    ensures SocketsMatch(h, Run(h).traffic) && AsksMatch(h, Run(h).traffic)
    decreases |h|
  {
    if h != [] {
      var init, e := h[..|h| - 1], h[|h| - 1];
      assert h == init + [e];
      assert FreshIds(init) by {
        forall i, j, key | 0 <= i < j < |init| && Asks(init[j], key) ensures !Uses(init[i], key) {
          assert init[i] == h[i] && init[j] == h[j];
        }
      }
      FieldsMatchHistory(init);
      SocketsStep(init, e, Run(init).traffic);
      AsksStep(init, e, Run(init).traffic);
    }
  }

  // ------------------------------------------------------------- main results

  /** `quiet` says exactly what the history since the last restart or navigation says: every
      named method has an answered ask, and no ask is unanswered on a socket still live. */
  lemma QuietIsHistory(h: seq<Event>, methods: seq<string>)
    requires FreshIds(h)
    ensures Quiet(Run(h).traffic, methods) <==> QuietInHistory(h, methods)
  {
    FieldsMatchHistory(h);
    var t := Run(h).traffic;
    if Quiet(t, methods) {
      forall m | m in methods ensures exists k, key :: Asked(h, k, key, m) && Answered(h, k, key) {
        var key :| key in t.asked && t.asked[key] == m && key in t.answered;
        var k :| Held(h, k, key, m);
        assert Answered(h, k, key);
      }
      forall k, key, m | Asked(h, k, key, m) && !Gone(h, key.socket) ensures Answered(h, k, key) {
        assert Held(h, k, key, m);
      }
    }
    if QuietInHistory(h, methods) {
      forall m | m in methods ensures exists key :: key in t.asked && t.asked[key] == m && key in t.answered {
        var k, key :| Asked(h, k, key, m) && Answered(h, k, key);
        assert Held(h, k, key, m);
      }
      forall key | key in t.asked ensures key in t.answered {
        var k :| Held(h, k, key, t.asked[key]);
      }
    }
  }

  lemma {:induction false} SocketsAreHistory(h: seq<Event>)
    ensures SocketsMatch(h, Run(h).traffic)
    decreases |h|
  {
    if h != [] {
      var init, e := h[..|h| - 1], h[|h| - 1];
      assert h == init + [e];
      SocketsAreHistory(init);
      SocketsStep(init, e, Run(init).traffic);
    }
  }

  ghost predicate ArrivedInHistory(h: seq<Event>, kind: string) {
    exists k :: 0 <= k < |h| && ArrivedAt(h, k, kind)
  }

  ghost predicate ArrivedAt(h: seq<Event>, k: nat, kind: string)
    requires k < |h|
  {
    && h[k].Received? && h[k].frame.Some? && h[k].frame.value.kind == kind && !Gone(h[..k], h[k].socket)
    && forall j :: k < j < |h| ==> h[j] != Restarted
  }

  lemma ArrivedStep(h: seq<Event>, e: Event, kind: string)
    ensures ArrivedInHistory(h + [e], kind)
       <==> (ArrivedInHistory(h, kind) && e != Restarted)
            || (e.Received? && e.frame.Some? && e.frame.value.kind == kind && !Gone(h, e.socket))
  {
    var g := h + [e];
    assert g[|h|] == e && g[..|h|] == h;
    if ArrivedInHistory(h, kind) && e != Restarted {
      var k :| 0 <= k < |h| && ArrivedAt(h, k, kind);
      assert g[..k] == h[..k] && g[k] == h[k];
      assert ArrivedAt(g, k, kind);
    }
    if ArrivedInHistory(g, kind) {
      var k :| 0 <= k < |g| && ArrivedAt(g, k, kind);
      if k < |h| {
        assert g[..k] == h[..k] && g[k] == h[k];
        assert forall j :: k < j < |h| ==> h[j] == g[j];
        assert ArrivedAt(h, k, kind);
      }
    }
    if e.Received? && e.frame.Some? && e.frame.value.kind == kind && !Gone(h, e.socket) {
      assert ArrivedAt(g, |h|, kind);
    }
  }

  /** A frame kind counts as arrived from its arrival on a live socket until the next restart;
      a navigation does not forget it. */
  lemma {:induction false} ArrivedIsHistory(h: seq<Event>, kind: string)
    ensures kind in Run(h).traffic.arrived <==> ArrivedInHistory(h, kind)
    decreases |h|
  {
    if h != [] {
      var init, e := h[..|h| - 1], h[|h| - 1];
      assert h == init + [e];
      SocketsAreHistory(init);
      ArrivedIsHistory(init, kind);
      ArrivedStep(init, e, kind);
    }
  }


  ghost predicate TurnEnded(h: seq<Event>) {
    exists k :: 0 <= k < |h| && TurnEndsAt(h, k)
  }

  ghost predicate TurnEndsAt(h: seq<Event>, k: nat)
    requires k < |h|
  {
    h[k].Received? && h[k].frame.Some? && EndsTurn(h[k].frame.value) && !Gone(h[..k], h[k].socket)
  }

  /** The turn is closed from the first frame ending a turn on a live socket on, restarts and
      navigations notwithstanding. */
  lemma {:induction false} ClosedIsHistory(h: seq<Event>)
    ensures Run(h).traffic.closed <==> TurnEnded(h)
    decreases |h|
  {
    if h != [] {
      var init, e := h[..|h| - 1], h[|h| - 1];
      assert h == init + [e];
      SocketsAreHistory(init);
      ClosedIsHistory(init);
      TurnEndedStep(init, e);
    }
  }

  lemma TurnEndedStep(h: seq<Event>, e: Event)
    ensures TurnEnded(h + [e])
       <==> TurnEnded(h) || (e.Received? && e.frame.Some? && EndsTurn(e.frame.value) && !Gone(h, e.socket))
  {
    var g := h + [e];
    assert g[|h|] == e && g[..|h|] == h;
    if TurnEnded(h) {
      var k :| 0 <= k < |h| && TurnEndsAt(h, k);
      assert g[..k] == h[..k] && g[k] == h[k];
      assert TurnEndsAt(g, k);
    }
    if TurnEnded(g) {
      var k :| 0 <= k < |g| && TurnEndsAt(g, k);
      if k < |h| {
        assert g[..k] == h[..k] && g[k] == h[k];
        assert TurnEndsAt(h, k);
      }
    }
    if e.Received? && e.frame.Some? && EndsTurn(e.frame.value) && !Gone(h, e.socket) {
      assert TurnEndsAt(g, |h|);
    }
  }
  ghost predicate NoneReady(l: Ledger) {
    forall w :: w in l.waiting ==> !Ready(l.traffic, w)
  }

  predicate NamesAMethod(w: Wants) {
    w.QuietAfter? ==> w.methods != []
  }

  lemma {:induction false} KeepIsFilter(ws: seq<Wants>, t: Traffic, ready: bool)
    ensures forall w :: w in Keep(ws, t, ready) <==> w in ws && Ready(t, w) == ready
    ensures multiset(Keep(ws, t, true)) + multiset(Keep(ws, t, false)) == multiset(ws)
  {
    if ws != [] {
      KeepIsFilter(ws[1..], t, ready);
      assert ws == [ws[0]] + ws[1..];
    }
  }

  /** What a wait is for has come: its frame arrived, the turn is closed, or each method it names is asked
      and nothing asked is unanswered. */
  ghost predicate Over(t: Traffic, w: Wants) {
    match w
    case Arrival(kind) => kind in t.arrived
    case TurnClosed => t.closed
    case QuietAfter(methods) =>
      (forall m :: m in methods ==> exists k :: k in t.asked && t.asked[k] == m) && forall k :: k in t.asked ==> k in t.answered
  }

  lemma ReadyIsOver(t: Traffic, w: Wants)
    ensures Ready(t, w) <==> Over(t, w)
  {
    if w.QuietAfter? && Over(t, w) {
      forall m | m in w.methods ensures exists k :: k in t.asked && t.asked[k] == m && k in t.answered {
        var k :| k in t.asked && t.asked[k] == m;
        assert k in t.answered;
      }
    }
  }

  lemma {:induction false} KeepCounts(ws: seq<Wants>, t: Traffic, w: Wants)
    ensures multiset(Keep(ws, t, false))[w] == if Ready(t, w) then 0 else multiset(ws)[w]
    ensures multiset(Keep(ws, t, true))[w] == if Ready(t, w) then multiset(ws)[w] else 0
  {
    if ws != [] {
      KeepCounts(ws[1..], t, w);
      assert ws == [ws[0]] + ws[1..];
    }
  }

  /** A look at the waiters resolves exactly those whose wait is over, each as often as it is listed. */
  lemma LookResolves(l: Ledger, w: Wants)
    ensures var c := Checked(l);
      && c.traffic == l.traffic
      && multiset(c.waiting)[w] == (if Over(l.traffic, w) then 0 else multiset(l.waiting)[w])
      && multiset(c.woken)[w] == multiset(l.woken)[w] + (if Over(l.traffic, w) then multiset(l.waiting)[w] else 0)
  {
    ReadyIsOver(l.traffic, w);
    KeepCounts(l.waiting, l.traffic, w);
  }

  /** A streamed answer's chunk leaves its ask open: only a last frame, or a plain answer, ends it. */
  lemma ChunksLeaveAsksOpen(t: Traffic, s: Socket, f: Frame, k: Key)
    requires s !in t.retired
    ensures k in Next(t, Received(s, Some(f))).answered <==>
              k in t.answered || (f.kind == "rpc" && f.id == Some(k.id) && k.socket == s && f.done != Some(false))
  {
  }

  /** An ask under a fresh id can only make the page less quiet. */
  lemma SentWakesNobody(h: seq<Event>, s: Socket, f: Option<Frame>, w: Wants)
    requires FreshIds(h + [Sent(s, f)]) && !Ready(Run(h).traffic, w)
    ensures !Ready(AfterSent(Run(h).traffic, s, f), w)
  {
    var g, t := h + [Sent(s, f)], Run(h).traffic;
    assert FreshIds(h) by {
      assert g[..|g| - 1] == h;
    }
    FieldsMatchHistory(h);
    if s !in t.retired && IsAsk(f) {
      var key := Key(s, f.value.id.value);
      FreshNow(h, Sent(s, f), key);
      assert key !in t.answered;
      assert key in AfterSent(t, s, f).asked;
    }
  }

  /** A live ask under a key already answered, the first of its method, while every ask is answered. */
  predicate CompletesQuiet(t: Traffic, s: Socket, f: Option<Frame>) {
    && s !in t.retired && IsAsk(f) && Key(s, f.value.id.value) in t.answered
    && forall k :: k in t.asked ==> k in t.answered && t.asked[k] != f.value.call.value
  }

  /** Whatever ids are used, a sent frame makes some wait ready exactly when it completes a quiet. */
  lemma SentWakesIff(t: Traffic, s: Socket, f: Option<Frame>)
    ensures (exists w :: !Ready(t, w) && Ready(AfterSent(t, s, f), w)) <==> CompletesQuiet(t, s, f)
  {
    var u := AfterSent(t, s, f);
    if CompletesQuiet(t, s, f) {
      var key, m := Key(s, f.value.id.value), f.value.call.value;
      var w := QuietAfter([m]);
      assert m in [m] && u.asked[key] == m;
      assert !Ready(t, w) && Ready(u, w);
    }
    if w :| !Ready(t, w) && Ready(u, w) {
      var methods := w.methods;
      var m :| m in methods && !exists k :: k in t.asked && t.asked[k] == m && k in t.answered;
      var k :| k in u.asked && u.asked[k] == m && k in u.answered;
      assert k == Key(s, f.value.id.value);
    }
  }

  /** No lost wakeup: after every event and registration no waiter still in the list is ready,
      although the sent handler and `restart` never look at the list. */
  lemma {:induction false} NoLostWakeup(h: seq<Event>)
    requires FreshIds(h)
    requires forall k :: 0 <= k < |h| && h[k].Awaited? ==> NamesAMethod(h[k].wants)
    ensures NoneReady(Run(h))
    ensures forall w :: w in Run(h).waiting ==> NamesAMethod(w)
    decreases |h|
  {
    if h != [] {
      var init, e := h[..|h| - 1], h[|h| - 1];
      assert h == init + [e];
      NoLostWakeup(init);
      var l := Run(init);
      var waiting := if e.Awaited? then l.waiting + [e.wants] else l.waiting;
      KeepIsFilter(waiting, Next(l.traffic, e), false);
      forall w | w in Run(h).waiting && !Looks(l.traffic, e) ensures !Ready(Run(h).traffic, w) {
        if e.Sent? { SentWakesNobody(init, e.socket, e.frame, w); }
        if e.Restarted? && w.QuietAfter? { assert NamesAMethod(w) && w.methods[0] in w.methods; }
      }
    }
  }

  /** A restart leaves a ready waiter unwoken exactly when one waits for quiet and names no method. */
  lemma RestartStrandsMethodless(l: Ledger)
    requires NoneReady(l)
    ensures NoneReady(After(l, Restarted)) <==> QuietAfter([]) !in l.waiting
  {
    var t := After(l, Restarted).traffic;
    forall w | w in l.waiting && w != QuietAfter([]) ensures !Ready(t, w) {
      if w.QuietAfter? { assert w.methods[0] in w.methods; }
      assert !Ready(l.traffic, w);
    }
    assert Ready(t, QuietAfter([]));
  }

  function Registered(h: seq<Event>): multiset<Wants> {
    if h == [] then multiset{}
    else Registered(h[..|h| - 1]) + (if h[|h| - 1].Awaited? then multiset{h[|h| - 1].wants} else multiset{})
  }

  lemma CheckedConserves(l: Ledger)
    ensures multiset(Checked(l).waiting) + multiset(Checked(l).woken) == multiset(l.waiting) + multiset(l.woken)
  {
    var out := Keep(l.waiting, l.traffic, true);
    KeepIsFilter(l.waiting, l.traffic, true);
    assert multiset(l.woken + out) == multiset(l.woken) + multiset(out);
  }

  lemma WaitersStep(l: Ledger, e: Event)
    ensures multiset(After(l, e).waiting) + multiset(After(l, e).woken)
         == multiset(l.waiting) + multiset(l.woken) + (if e.Awaited? then multiset{e.wants} else multiset{})
  {
    var waiting := if e.Awaited? then l.waiting + [e.wants] else l.waiting;
    CheckedConserves(Ledger(Next(l.traffic, e), waiting, l.woken));
  }

  /** Every registered waiter is either still waiting or was resolved, once. */
  lemma {:induction false} WaitersConserved(h: seq<Event>)
    ensures multiset(Run(h).waiting) + multiset(Run(h).woken) == Registered(h)
    decreases |h|
  {
    if h != [] {
      WaitersConserved(h[..|h| - 1]);
      WaitersStep(Run(h[..|h| - 1]), h[|h| - 1]);
    }
  }

  const EARLY := Received("s", Some(Frame("rpc", Some("1"), None, None)))
  const WAIT := Awaited(QuietAfter(["m"]))
  const LATE := Sent("s", Some(Frame("rpc", Some("1"), Some("m"), None)))

  lemma EarlyAnswerWaits()
    ensures var l := Run([EARLY, WAIT]);
      l.traffic == Run([EARLY]).traffic && l.waiting == [QuietAfter(["m"])]
      && l.traffic.asked == map[] && l.traffic.answered == {Key("s", "1")} && l.traffic.retired == {}
  {
    RunSnoc([], EARLY);
    RunSnoc([EARLY], WAIT);
    assert [] + [EARLY] == [EARLY] && [EARLY] + [WAIT] == [EARLY, WAIT];
    var a := Run([EARLY]);
    assert "m" in ["m"];
    assert !Ready(a.traffic, QuietAfter(["m"]));
    assert a.waiting + [QuietAfter(["m"])] == [QuietAfter(["m"])];
    assert Keep([QuietAfter(["m"])], a.traffic, false) == [QuietAfter(["m"])];
  }

  /** A reused id breaks both: an answer that came before its ask makes the page quiet at the
      ask, where nobody looks. */
  lemma ReusedIdLosesWakeup()
    ensures var h := [EARLY, WAIT, LATE];
      QuietAfter(["m"]) in Run(h).waiting && Ready(Run(h).traffic, QuietAfter(["m"])) && !QuietInHistory(h, ["m"])
  {
    var h := [EARLY, WAIT, LATE];
    EarlyAnswerWaits();
    RunSnoc([EARLY, WAIT], LATE);
    assert h == [EARLY, WAIT] + [LATE];
    assert Run(h).traffic.asked == map[Key("s", "1") := "m"];
    assert !exists k, other :: Asked(h, k, other, "m") && Answered(h, k, other);
    assert "m" in ["m"];
  }

  lemma RunSnoc(h: seq<Event>, e: Event)
    ensures Run(h + [e]) == After(Run(h), e)
  {
    assert (h + [e])[..|h + [e]| - 1] == h;
  }
}
