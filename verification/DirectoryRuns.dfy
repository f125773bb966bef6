/**
 Paging refines a plain list with a cursor. Whatever happens to the requests on the way (refused, lost, late, malformed or
 repeated responses, timeouts, retries), the selection is where the accepted cursor keys alone would have put it.
 */
module DirectoryRuns {
  import opened Common
  import opened ActionRecords
  import opened MessageCodec
  import opened ExecId
  import opened ActionsController
  import opened ExecutionRuns

  /** The entries of each type, as the computer of the current session lists them. */
  datatype Catalogs = Catalogs(script: seq<Entry>, clipboard: seq<Entry>)

  function Catalog(cats: Catalogs, t: ActionType): seq<Entry> {
    if t == Script then cats.script else cats.clipboard
  }

  function PageAt(cat: seq<Entry>, offset: nat): seq<Entry>
    requires InRange(offset, |cat|)
  {
    cat[offset..offset + Held(offset, |cat|)]
  }

  /** A successful list response carries the catalog's total and its entries from the offset it names. */
  predicate IsPage(m: Message, cat: seq<Entry>) {
    m.total == |cat| && InRange(m.offset, |cat|) && m.actions == PageAt(cat, m.offset)
  }

  predicate Honest(m: Message, cats: Catalogs) {
    m.request == Some(ListActions) && m.code == OK && m.hasActionType ==> IsPage(m, Catalog(cats, m.actionType))
  }

  // ---------------------------------------------------------------- one directory

  predicate Window(d: Directory, cat: seq<Entry>) {
    && d.total == |cat| && d.offset % PAGE_SIZE == 0 && InRange(d.offset, |cat|) && d.entries == PageAt(cat, d.offset)
    && (d.hasNextOffset <==> |cat| - d.offset > PAGE_SIZE) && (d.hasNextOffset ==> d.nextOffset == d.offset + PAGE_SIZE)
    && (if d.entries == [] then d.selected == 0 else d.selected < |d.entries|)
  }

  predicate Target(offset: nat, cat: seq<Entry>) { offset % PAGE_SIZE == 0 && InRange(offset, |cat|) }

  predicate DirInv(d: Directory, cat: seq<Entry>) {
    && Target(d.targetOffset, cat) && (d.hasTotal ==> Window(d, cat))
    && (d.status == Ready ==> d.hasTotal) && (d.status == Loading <==> d.id != "")
    && (d.status == NotLoaded || d.status == Unsupported ==> !d.hasTotal && d.targetOffset == 0 && !d.selectLast)
  }

  /** The index a page request is after. */
  function Goal(offset: nat, selectLast: bool, cat: seq<Entry>): nat
    requires Target(offset, cat)
  {
    if selectLast && cat != [] then offset + Held(offset, |cat|) - 1 else offset
  }

  /** The index the user is at, or on the way to. */
  function Cursor(d: Directory, cat: seq<Entry>): nat
    requires DirInv(d, cat)
  {
    if d.status == Ready then d.offset + d.selected else Goal(d.targetOffset, d.selectLast, cat)
  }

  lemma LoadedLands(d: Directory, cat: seq<Entry>, t: ActionType, m: Message)
    requires DirInv(d, cat) && d.status == Loading && ValidPage(d, t, m) && IsPage(m, cat)
    ensures DirInv(Loaded(d, m), cat) && Cursor(Loaded(d, m), cat) == Cursor(d, cat)
  {}

  lemma RequestAims(d: Directory, cat: seq<Entry>, d': Directory)
    requires DirInv(d, cat) && Target(d'.targetOffset, cat)
    requires d'.status == LoadFailed || d'.status == Loading
    requires d'.status == Loading <==> d'.id != ""
    requires d' == d.(targetOffset := d'.targetOffset, selectLast := d'.selectLast, id := d'.id, status := d'.status, started := d'.started)
    ensures DirInv(d', cat) && Cursor(d', cat) == Goal(d'.targetOffset, d'.selectLast, cat)
  {}

  // ---------------------------------------------------------------- the controller

  predicate Offered(s: Session, t: ActionType) { s.ready && s.list && t in s.types }

  predicate DirOk(c: Controller, t: ActionType, cat: seq<Entry>) {
    DirInv(Dir(c, t), cat) && (Dir(c, t).status != Unsupported ==> Offered(c.session, t))
  }

  /** Directory t went from c to c' with its cursor at `pos`. */
  predicate Leads(c: Controller, c': Controller, t: ActionType, cat: seq<Entry>, pos: nat) {
    DirOk(c, t, cat) ==> DirOk(c', t, cat) && Cursor(Dir(c', t), cat) == pos
  }

  function At(c: Controller, t: ActionType, cat: seq<Entry>): nat {
    if DirInv(Dir(c, t), cat) then Cursor(Dir(c, t), cat) else 0
  }

  lemma FailStays(c: Controller, u: ActionType, t: ActionType, cat: seq<Entry>)
    requires DirOk(c, t, cat) && (u == t ==> Dir(c, t).status == Loading)
    ensures Leads(c, FailedDirectory(c, u), t, cat, At(c, t, cat))
  {}

  lemma DirectoryTickStays(c: Controller, u: ActionType, now: u32, t: ActionType, cat: seq<Entry>)
    requires DirOk(c, t, cat)
    ensures Leads(c, DirectoryTicked(c, u, now), t, cat, At(c, t, cat))
    ensures Dir(c, t).status != Loading ==> Dir(DirectoryTicked(c, u, now), t) == Dir(c, t)
    ensures DirectoryTicked(c, u, now).session == c.session
  {}

  lemma TickStays(c: Controller, now: u32, t: ActionType, cat: seq<Entry>)
    requires DirOk(c, t, cat)
    ensures Leads(c, Ticked(c, now), t, cat, At(c, t, cat))
    ensures Dir(c, t).status != Loading ==> Dir(Ticked(c, now), t) == Dir(c, t)
    ensures Ticked(c, now).session == c.session
  {
    var c1 := FeedbackTicked(c, now);
    DirectoryTickStays(c1, Script, now, t, cat);
    DirectoryTickStays(DirectoryTicked(c1, Script, now), Clipboard, now, t, cat);
  }

  lemma RequestElsewhere(c: Controller, u: ActionType, offset: u64, selectLast: bool, now: u32, accepted: bool, t: ActionType, cat: seq<Entry>)
    requires DirOk(c, t, cat) && u != t
    ensures Leads(c, PageRequested(c, u, offset, selectLast, now, accepted), t, cat, At(c, t, cat))
  {}

  lemma RequestShape(c: Controller, t: ActionType, offset: u64, selectLast: bool, now: u32, accepted: bool, c': Controller)
    requires MayRequest(c, t) && c' == PageRequested(c, t, offset, selectLast, now, accepted)
    ensures c'.session == c.session
    ensures var d, d' := Dir(c, t), Dir(c', t);
            && (d'.status == LoadFailed || d'.status == Loading) && (d'.status == Loading <==> d'.id != "")
            && d' == d.(targetOffset := offset, selectLast := selectLast, id := d'.id, status := d'.status, started := d'.started)
  {}

  lemma RequestLeads(c: Controller, t: ActionType, offset: u64, selectLast: bool, now: u32, accepted: bool, cat: seq<Entry>)
    requires DirOk(c, t, cat) && MayRequest(c, t) && Target(offset, cat)
    ensures Leads(c, PageRequested(c, t, offset, selectLast, now, accepted), t, cat, Goal(offset, selectLast, cat))
  {
    var c' := PageRequested(c, t, offset, selectLast, now, accepted);
    RequestShape(c, t, offset, selectLast, now, accepted, c');
    RequestAims(Dir(c, t), cat, Dir(c', t));
  }

  lemma EnterStays(c: Controller, u: ActionType, now: u32, accepted: bool, t: ActionType, cat: seq<Entry>)
    requires DirOk(c, t, cat)
    ensures Leads(c, Entered(c, u, now, accepted), t, cat, At(c, t, cat))
  {
    TickStays(c, now, t, cat);
    var c1 := Ticked(c, now);
    if u != t {
      RequestElsewhere(c1, u, 0, false, now, accepted, t, cat);
    } else if Dir(c1, t).status == NotLoaded {
      RequestLeads(c1, t, 0, false, now, accepted, cat);
    }
  }

  lemma SubmitStays(c: Controller, request: Request, target: seq<byte>, key: Option<byte>, now: u32, accepted: bool, t: ActionType, cat: seq<Entry>)
    requires DirOk(c, t, cat)
    ensures Leads(c, Submitted(c, request, target, key, now, accepted).0, t, cat, At(c, t, cat))
  {
    TickStays(c, now, t, cat);
    SubmitNowStays(Ticked(c, now), request, target, key, now, accepted, t, cat);
  }

  lemma SubmitNowStays(c: Controller, request: Request, target: seq<byte>, key: Option<byte>, now: u32, accepted: bool, t: ActionType, cat: seq<Entry>)
    ensures Dir(SubmittedNow(c, request, target, key, now, accepted).0, t) == Dir(c, t)
    ensures SubmittedNow(c, request, target, key, now, accepted).0.session == c.session
  {}

  lemma ByIdStays(c: Controller, u: ActionType, id: seq<byte>, now: u32, accepted: bool, t: ActionType, cat: seq<Entry>)
    requires DirOk(c, t, cat)
    ensures Leads(c, ExecutedById(c, u, id, now, accepted).0, t, cat, At(c, t, cat))
  {
    SubmitStays(c, Execute, id, None, now, accepted, t, cat);
  }

  lemma ConfirmStays(c: Controller, u: ActionType, now: u32, accepted: bool, t: ActionType, cat: seq<Entry>)
    requires DirOk(c, t, cat)
    ensures Leads(c, Confirmed(c, u, now, accepted).0, t, cat, At(c, t, cat))
  {
    var d := Dir(c, u);
    if d.status == LoadFailed {
      if u != t {
        RequestElsewhere(c, u, d.targetOffset, d.selectLast, now, accepted, t, cat);
      } else if MayRequest(c, t) {
        RequestLeads(c, t, d.targetOffset, d.selectLast, now, accepted, cat);
      }
    } else if d.selected < |d.entries| {
      ByIdStays(c, u, d.entries[d.selected].actionId, now, accepted, t, cat);
    }
  }

  // ---------------------------------------------------------------- the cursor

  function Shifted(pos: nat, direction: Direction, n: nat): nat {
    match direction
    case Up => if pos > 0 then pos - 1 else 0
    case Stay => pos
    case Down => if pos + 1 < n then pos + 1 else pos
  }

  lemma MoveShifts(c: Controller, direction: Direction, now: u32, accepted: bool, t: ActionType, cat: seq<Entry>)
    requires DirOk(c, t, cat) && Dir(c, t).status == Ready
    ensures Leads(c, Moved(c, t, direction, now, accepted), t, cat, Shifted(At(c, t, cat), direction, |cat|))
  {
    var d := Dir(c, t);
    if direction == Up && d.selected == 0 && d.offset > 0 {
      assert Target(d.offset - PAGE_SIZE, cat);
      RequestLeads(c, t, PreviousOffset(d), true, now, accepted, cat);
    } else if direction == Down && d.selected + 1 >= |d.entries| && d.hasNextOffset {
      assert Target(d.nextOffset, cat);
      RequestLeads(c, t, d.nextOffset, false, now, accepted, cat);
    }
  }

  lemma MoveElsewhere(c: Controller, u: ActionType, direction: Direction, now: u32, accepted: bool, t: ActionType, cat: seq<Entry>)
    requires DirOk(c, t, cat) && (u != t || Dir(c, t).status != Ready)
    ensures Leads(c, Moved(c, u, direction, now, accepted), t, cat, At(c, t, cat))
  {
    if u != t {
      RequestElsewhere(c, u, PreviousOffset(Dir(c, u)), true, now, accepted, t, cat);
      RequestElsewhere(c, u, Dir(c, u).nextOffset, false, now, accepted, t, cat);
    }
  }

  lemma ReceiveNowStays(c: Controller, m: Message, now: u32, t: ActionType, cats: Catalogs)
    requires DirOk(c, t, Catalog(cats, t)) && (Awaited(c, t, m) ==> Honest(m, cats))
    ensures Leads(c, ReceivedNow(c, m, now).0, t, Catalog(cats, t), At(c, t, Catalog(cats, t)))
  {
    var cat := Catalog(cats, t);
    if Awaited(c, t, m) && (t == Script || !Awaited(c, Script, m)) {
      FailStays(c, t, t, cat);
      if ValidPage(Dir(c, t), t, m) && m.code == OK { LoadedLands(Dir(c, t), cat, t, m); }
    }
  }

  lemma ReceiveStays(c: Controller, isResponse: bool, m: Message, now: u32, t: ActionType, cats: Catalogs)
    requires DirOk(c, t, Catalog(cats, t)) && (Awaited(c, t, m) ==> Honest(m, cats))
    ensures Leads(c, Received(c, isResponse, m, now).0, t, Catalog(cats, t), At(c, t, Catalog(cats, t)))
  {
    TickStays(c, now, t, Catalog(cats, t));
    TickAwaits(c, now, t, m);
    ReceiveNowStays(Ticked(c, now), m, now, t, cats);
  }

  lemma TickAwaits(c: Controller, now: u32, t: ActionType, m: Message)
    ensures Awaited(Ticked(c, now), t, m) ==> Awaited(c, t, m)
  {}

  // ---------------------------------------------------------------- runs

  predicate Resets(c: Controller, input: Input) {
    input.Drop? || (input.Connect? && input.s.ready && c.session != input.s)
  }

  /** The cursor key this input is for directory t; keys count only while a page is on display. */
  function KeyOf(c: Controller, input: Input, t: ActionType): Direction {
    if input.Move? && input.t == t && Dir(c, t).status == Ready then input.direction else Stay
  }

  /** The cursor keys since the directory was last reset. */
  function Keys(c: Controller, inputs: seq<Input>, t: ActionType): seq<Direction> {
    if inputs == [] then []
    else
      var before, input := inputs[..|inputs| - 1], inputs[|inputs| - 1];
      if Resets(Run(c, before), input) then [] else Keys(c, before, t) + [KeyOf(Run(c, before), input, t)]
  }

  function Walk(keys: seq<Direction>, n: nat): nat {
    if keys == [] then 0 else Shifted(Walk(keys[..|keys| - 1], n), keys[|keys| - 1], n)
  }

  /** A response that answers a page request in flight is honest; whatever else arrives may be anything. */
  predicate HonestInput(c: Controller, input: Input, cats: Catalogs) {
    input.Arrive? && (Awaited(c, Script, input.m) || Awaited(c, Clipboard, input.m)) ==> Honest(input.m, cats)
  }

  /** Since the last reset, pages came from these lists; what earlier sessions, or other computers, listed is left open. */
  predicate HonestSince(c: Controller, inputs: seq<Input>, cats: Catalogs) {
    inputs == []
    || var before, input := inputs[..|inputs| - 1], inputs[|inputs| - 1];
       Resets(Run(c, before), input) || (HonestSince(c, before, cats) && HonestInput(Run(c, before), input, cats))
  }

  lemma ResetStarts(c: Controller, input: Input, t: ActionType, cat: seq<Entry>)
    requires Resets(c, input)
    ensures DirOk(Step(c, input), t, cat) && At(Step(c, input), t, cat) == 0
  {
    assert Target(0, cat);
  }

  lemma StepShifts(c: Controller, input: Input, t: ActionType, cats: Catalogs)
    requires DirOk(c, t, Catalog(cats, t)) && !Resets(c, input) && HonestInput(c, input, cats)
    ensures var cat := Catalog(cats, t);
            Leads(c, Step(c, input), t, cat, Shifted(At(c, t, cat), KeyOf(c, input, t), |cat|))
  {
    var cat := Catalog(cats, t);
    match input
    case Tick(now) => TickStays(c, now, t, cat);
    case Connect(s) =>
    case Drop =>
    case Enter(u, now, accepted) => EnterStays(c, u, now, accepted, t, cat);
    case Move(u, direction, now, accepted) =>
      if u == t && Dir(c, t).status == Ready { MoveShifts(c, direction, now, accepted, t, cat); }
      else { MoveElsewhere(c, u, direction, now, accepted, t, cat); }
    case Confirm(u, now, accepted) => ConfirmStays(c, u, now, accepted, t, cat);
    case ById(u, target, now, accepted) => ByIdStays(c, u, target, now, accepted, t, cat);
    case ByKey(key, now, accepted) => SubmitStays(c, Shortcut, [], Some(LowerCase(key)), now, accepted, t, cat);
    case Arrive(isResponse, m, now) => ReceiveStays(c, isResponse, m, now, t, cats);
    case Elsewhere =>
  }

  lemma {:induction false} CursorFollowsKeys(last: u64, inputs: seq<Input>, t: ActionType, cats: Catalogs)
    requires HonestSince(Start(last), inputs, cats)
    ensures var c, cat := Run(Start(last), inputs), Catalog(cats, t);
            DirOk(c, t, cat) && At(c, t, cat) == Walk(Keys(Start(last), inputs, t), |cat|)
  {
    var cat := Catalog(cats, t);
    if inputs == [] {
      assert Target(0, cat);
    } else {
      var before, input := inputs[..|inputs| - 1], inputs[|inputs| - 1];
      var c := Run(Start(last), before);
      if Resets(c, input) {
        ResetStarts(c, input, t, cat);
      } else {
        CursorFollowsKeys(last, before, t, cats);
        StepShifts(c, input, t, cats);
        WalkLast(Keys(Start(last), before, t), KeyOf(c, input, t), |cat|);
      }
    }
  }

  lemma WalkLast(keys: seq<Direction>, key: Direction, n: nat)
    ensures Walk(keys + [key], n) == Shifted(Walk(keys, n), key, n)
  {
    assert (keys + [key])[..|keys + [key]| - 1] == keys;
  }

  /** What is on display is the entry at `at`, if there is any. */
  predicate Shows(d: Directory, cat: seq<Entry>, at: nat) {
    if cat == [] then d.entries == [] else at < |cat| && d.selected < |d.entries| && d.entries[d.selected] == cat[at]
  }

  lemma ReadyShows(d: Directory, cat: seq<Entry>)
    requires DirInv(d, cat) && d.status == Ready
    ensures Shows(d, cat, Cursor(d, cat))
  {}

  /** In every run whose pages since the last reset are honest, what is on display is the entry the accepted keys alone lead to. */
  lemma PagingIsInvisible(last: u64, inputs: seq<Input>, t: ActionType, cats: Catalogs)
    requires HonestSince(Start(last), inputs, cats) && Dir(Run(Start(last), inputs), t).status == Ready
    ensures var cat := Catalog(cats, t);
            Shows(Dir(Run(Start(last), inputs), t), cat, Walk(Keys(Start(last), inputs, t), |cat|))
  {
    CursorFollowsKeys(last, inputs, t, cats);
    ReadyShows(Dir(Run(Start(last), inputs), t), Catalog(cats, t));
  }

  // ---------------------------------------------------------------- traversal

  function Repeated(key: Direction, times: nat): seq<Direction> { seq(times, _ => key) }

  /** Down visits every index once, in order, and stops at the last. */
  lemma {:induction false} DownVisitsAll(times: nat, n: nat)
    ensures Walk(Repeated(Down, times), n) == if times < n then times else if n == 0 then 0 else n - 1
  {
    if times > 0 {
      DownVisitsAll(times - 1, n);
      assert Repeated(Down, times) == Repeated(Down, times - 1) + [Down];
      WalkLast(Repeated(Down, times - 1), Down, n);
    }
  }

  /** From there Up visits them all again in the opposite order, and stops at the first. */
  lemma {:induction false} UpReverses(keys: seq<Direction>, times: nat, n: nat)
    ensures Walk(keys + Repeated(Up, times), n) == if times < Walk(keys, n) then Walk(keys, n) - times else 0
  {
    if times == 0 {
      assert keys + Repeated(Up, 0) == keys;
    } else {
      UpReverses(keys, times - 1, n);
      assert keys + Repeated(Up, times) == (keys + Repeated(Up, times - 1)) + [Up];
      WalkLast(keys + Repeated(Up, times - 1), Up, n);
    }
  }

  /** Each key undoes the other, except where it had no effect. */
  lemma KeysUndo(keys: seq<Direction>, n: nat)
    ensures Walk(keys, n) + 1 < n ==> Walk(keys + [Down] + [Up], n) == Walk(keys, n)
    ensures 0 < Walk(keys, n) < n ==> Walk(keys + [Up] + [Down], n) == Walk(keys, n)
  {
    WalkLast(keys, Down, n);
    WalkLast(keys + [Down], Up, n);
    WalkLast(keys, Up, n);
    WalkLast(keys + [Up], Down, n);
  }

  // ---------------------------------------------------------------- the two directories' identities

  /** One of the identities handed out so far. */
  ghost predicate Issued(id: string, last: u64) { exists n: u64 :: 0 < n <= last && id == Printed(n) }

  /** The two directories never wait for the same identity. */
  ghost predicate IdsApart(c: Controller) {
    && (c.script.id == "" || Issued(c.script.id, c.last)) && (c.clipboard.id == "" || Issued(c.clipboard.id, c.last))
    && (c.script.id != "" ==> c.script.id != c.clipboard.id)
  }

  predicate Quieter(before: string, after: string) { after == "" || after == before }

  /** Requests may have ended, but none began. */
  predicate NoNewRequest(c: Controller, c': Controller) {
    c.last <= c'.last && Quieter(c.script.id, c'.script.id) && Quieter(c.clipboard.id, c'.clipboard.id)
  }

  function Other(t: ActionType): ActionType { if t == Script then Clipboard else Script }

  /** One directory waits for the next identity. */
  predicate NewRequest(c: Controller, c': Controller, t: ActionType) {
    && c.last < MAX_ID && c'.last == c.last + 1 && Dir(c', t).id == Printed(c.last + 1)
    && Quieter(Dir(c, Other(t)).id, Dir(c', Other(t)).id)
  }

  predicate IdsMove(c: Controller, c': Controller) {
    NoNewRequest(c, c') || NewRequest(c, c', Script) || NewRequest(c, c', Clipboard)
  }

  lemma NotIssuedYet(id: string, last: u64)
    requires Issued(id, last) && last < MAX_ID
    ensures id != Printed(last + 1)
  {
    var n: u64 :| 0 < n <= last && id == Printed(n);
    if id == Printed(last + 1) { PrintedInjective(n, last + 1); }
  }

  lemma StillIssued(id: string, last: u64, later: u64)
    requires Issued(id, last) && last <= later
    ensures Issued(id, later)
  {
    var n: u64 :| 0 < n <= last && id == Printed(n);
  }

  lemma MoveKeepsApart(c: Controller, c': Controller)
    requires IdsApart(c) && IdsMove(c, c')
    ensures IdsApart(c')
  {
    if c.script.id != "" { StillIssued(c.script.id, c.last, c'.last); }
    if c.clipboard.id != "" { StillIssued(c.clipboard.id, c.last, c'.last); }
    if c.last < MAX_ID {
      if c.script.id != "" { NotIssuedYet(c.script.id, c.last); }
      if c.clipboard.id != "" { NotIssuedYet(c.clipboard.id, c.last); }
      if !NoNewRequest(c, c') { assert Issued(Printed(c.last + 1), c.last + 1); }
    }
  }

  lemma ThenMoves(c: Controller, c1: Controller, c2: Controller)
    requires NoNewRequest(c, c1) && c1.last == c.last && IdsMove(c1, c2)
    ensures IdsMove(c, c2)
  {}

  lemma TickIds(c: Controller, now: u32)
    ensures NoNewRequest(c, Ticked(c, now)) && Ticked(c, now).last == c.last
  {
    var c1 := FeedbackTicked(c, now);
    var c2 := DirectoryTicked(c1, Script, now);
    assert NoNewRequest(c1, c2) && c2.last == c.last;
    var c3 := DirectoryTicked(c2, Clipboard, now);
    assert NoNewRequest(c2, c3) && c3.last == c.last;
  }

  lemma PageRequestIds(c: Controller, t: ActionType, offset: u64, selectLast: bool, now: u32, accepted: bool)
    ensures IdsMove(c, PageRequested(c, t, offset, selectLast, now, accepted))
  {}

  lemma SubmitNowIds(c: Controller, request: Request, target: seq<byte>, key: Option<byte>, now: u32, accepted: bool)
    ensures IdsMove(c, SubmittedNow(c, request, target, key, now, accepted).0)
  {}

  lemma SubmitIds(c: Controller, request: Request, target: seq<byte>, key: Option<byte>, now: u32, accepted: bool)
    ensures IdsMove(c, Submitted(c, request, target, key, now, accepted).0)
  {
    TickIds(c, now);
    SubmitNowIds(Ticked(c, now), request, target, key, now, accepted);
    ThenMoves(c, Ticked(c, now), Submitted(c, request, target, key, now, accepted).0);
  }

  lemma ByIdIds(c: Controller, t: ActionType, id: seq<byte>, now: u32, accepted: bool)
    ensures IdsMove(c, ExecutedById(c, t, id, now, accepted).0)
  {
    SubmitIds(c, Execute, id, None, now, accepted);
  }

  lemma ConfirmIds(c: Controller, t: ActionType, now: u32, accepted: bool)
    ensures IdsMove(c, Confirmed(c, t, now, accepted).0)
  {
    var d := Dir(c, t);
    PageRequestIds(c, t, d.targetOffset, d.selectLast, now, accepted);
    if d.selected < |d.entries| { ByIdIds(c, t, d.entries[d.selected].actionId, now, accepted); }
  }

  lemma EnterIds(c: Controller, t: ActionType, now: u32, accepted: bool)
    ensures IdsMove(c, Entered(c, t, now, accepted))
  {
    TickIds(c, now);
    PageRequestIds(Ticked(c, now), t, 0, false, now, accepted);
    ThenMoves(c, Ticked(c, now), Entered(c, t, now, accepted));
  }

  lemma SelectIds(c: Controller, t: ActionType, selected: nat)
    ensures NoNewRequest(c, WithDir(c, t, Dir(c, t).(selected := selected)))
  {}

  lemma MoveIds(c: Controller, t: ActionType, direction: Direction, now: u32, accepted: bool)
    ensures IdsMove(c, Moved(c, t, direction, now, accepted))
  {
    var d := Dir(c, t);
    match direction
    case Up =>
      if d.selected > 0 { SelectIds(c, t, d.selected - 1); } else { PageRequestIds(c, t, PreviousOffset(d), true, now, accepted); }
    case Down =>
      if d.selected + 1 < |d.entries| { SelectIds(c, t, d.selected + 1); } else { PageRequestIds(c, t, d.nextOffset, false, now, accepted); }
    case Stay =>
  }

  lemma ReceiveNowIds(c: Controller, m: Message, now: u32)
    ensures IdsMove(c, ReceivedNow(c, m, now).0)
  {}

  lemma ReceiveIds(c: Controller, isResponse: bool, m: Message, now: u32)
    ensures IdsMove(c, Received(c, isResponse, m, now).0)
  {
    TickIds(c, now);
    ReceiveNowIds(Ticked(c, now), m, now);
    ThenMoves(c, Ticked(c, now), ReceivedNow(Ticked(c, now), m, now).0);
  }

  lemma StepIds(c: Controller, input: Input)
    ensures IdsMove(c, Step(c, input))
  {
    match input
    case Tick(now) => TickIds(c, now);
    case Connect(s) =>
    case Drop =>
    case Enter(t, now, accepted) => EnterIds(c, t, now, accepted);
    case Move(t, direction, now, accepted) => MoveIds(c, t, direction, now, accepted);
    case Confirm(t, now, accepted) => ConfirmIds(c, t, now, accepted);
    case ById(t, target, now, accepted) => ByIdIds(c, t, target, now, accepted);
    case ByKey(key, now, accepted) => SubmitIds(c, Shortcut, [], Some(LowerCase(key)), now, accepted);
    case Arrive(isResponse, m, now) => ReceiveIds(c, isResponse, m, now);
    case Elsewhere =>
  }

  /** In every run. */
  lemma {:induction false} DirectoriesApart(last: u64, inputs: seq<Input>)
    ensures IdsApart(Run(Start(last), inputs))
  {
    if inputs != [] {
      var c := Run(Start(last), inputs[..|inputs| - 1]);
      DirectoriesApart(last, inputs[..|inputs| - 1]);
      StepIds(c, inputs[|inputs| - 1]);
      MoveKeepsApart(c, Step(c, inputs[|inputs| - 1]));
    }
  }

  // ---------------------------------------------------------------- the awaited page

  /** Traversal goes on, in every run: the awaited page, served in time, is put on display with the entry the accepted keys lead to. */
  lemma AnswerLands(last: u64, inputs: seq<Input>, m: Message, now: u32, t: ActionType, cats: Catalogs)
    requires HonestSince(Start(last), inputs, cats)
    requires var c := Run(Start(last), inputs);
             && Awaited(c, t, m) && m.code == OK && Elapsed(now, Dir(c, t).started) < DIRECTORY_TIMEOUT_MS
             && ValidPage(Dir(c, t), t, m) && IsPage(m, Catalog(cats, t))
    ensures var c', cat := Step(Run(Start(last), inputs), Arrive(true, m, now)), Catalog(cats, t);
            Dir(c', t).status == Ready && Shows(Dir(c', t), cat, Walk(Keys(Start(last), inputs, t), |cat|))
  {
    CursorFollowsKeys(last, inputs, t, cats);
    DirectoriesApart(last, inputs);
    PageShown(Run(Start(last), inputs), m, now, t, cats, Walk(Keys(Start(last), inputs, t), |Catalog(cats, t)|));
  }

  lemma PageShown(c: Controller, m: Message, now: u32, t: ActionType, cats: Catalogs, at: nat)
    requires DirOk(c, t, Catalog(cats, t)) && At(c, t, Catalog(cats, t)) == at && IdsApart(c) && Awaited(c, t, m) && m.code == OK
    requires Elapsed(now, Dir(c, t).started) < DIRECTORY_TIMEOUT_MS
    requires ValidPage(Dir(c, t), t, m) && IsPage(m, Catalog(cats, t))
    ensures var c' := Step(c, Arrive(true, m, now)); Dir(c', t).status == Ready && Shows(Dir(c', t), Catalog(cats, t), at)
  {
    PageLands(c, m, now, t, cats);
    ReadyShows(Dir(Received(c, true, m, now).0, t), Catalog(cats, t));
  }

  lemma PageLands(c: Controller, m: Message, now: u32, t: ActionType, cats: Catalogs)
    requires DirOk(c, t, Catalog(cats, t)) && IdsApart(c) && Awaited(c, t, m) && m.code == OK
    requires Elapsed(now, Dir(c, t).started) < DIRECTORY_TIMEOUT_MS
    requires ValidPage(Dir(c, t), t, m) && IsPage(m, Catalog(cats, t))
    ensures var c', cat := Received(c, true, m, now).0, Catalog(cats, t);
            Dir(c', t).status == Ready && DirOk(c', t, cat) && At(c', t, cat) == At(c, t, cat)
  {
    TimelyStays(c, now, t);
    LoadedLands(Dir(c, t), Catalog(cats, t), t, m);
  }

  lemma TimelyStays(c: Controller, now: u32, t: ActionType)
    requires Dir(c, t).id != "" && Elapsed(now, Dir(c, t).started) < DIRECTORY_TIMEOUT_MS
    ensures Dir(Ticked(c, now), t) == Dir(c, t) && Ticked(c, now).session == c.session
    ensures Ticked(c, now).script.id == c.script.id || Ticked(c, now).script.id == ""
  {}
}
