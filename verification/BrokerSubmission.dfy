/** Submitting one order through three attempts when acknowledgements get lost:
    the tagged look-up before each repeat keeps it to one live order. */
module BrokerSubmission {
  import opened Wrappers

  datatype KiteOrder = KiteOrder(tag: Option<string>, status: string) {
    predicate Live() {
      status != "REJECTED" && status != "CANCELLED"
    }
  }

  type KiteBook = seq<KiteOrder>

  /** What became of a submission: listed at once, listed only after the next
      look-up, or never. */
  datatype Acceptance = Listed | ListedLate | Dropped

  datatype Reply = Acknowledged | Transient | Refused

  /** One attempt against the adversary: how the book moved before the look-up
      and before the submission, and how both calls went. An acknowledged
      submission is in the book. */
  datatype Attempt = Attempt(
    before: KiteBook, lookupOk: bool,
    between: KiteBook, acceptance: Acceptance, reply: Reply)
  {
    function Accepted(): Acceptance {
      if reply.Acknowledged? then Listed else acceptance
    }
  }

  datatype Outcome = Placed(id: nat) | RaisedTransient | RaisedRefused

  /** `pending` submissions were accepted but are not listed yet; `doubled` counts
      the submissions accepted while an earlier one still stood. */
  datatype Progress = Progress(book: KiteBook, pending: nat, doubled: nat)

  // ---- the book ------------------------------------------------------------

  /** Others' orders come and go; ours keep their tag and never come back. */
  predicate Moves(a: KiteBook, b: KiteBook, tag: Option<string>) {
    && |a| <= |b|
    && (forall k :: 0 <= k < |a| ==> b[k].tag == a[k].tag && (b[k].Live() ==> a[k].Live()))
    && (tag.Some? ==> forall k :: |a| <= k < |b| ==> b[k].tag != tag)
  }

  function Move(a: KiteBook, b: KiteBook, tag: Option<string>): (r: KiteBook)
    ensures Moves(a, r, tag)
  {
    if Moves(a, b, tag) then b else a
  }

  /** The k-th order has the tag and was neither rejected nor cancelled. */
  predicate StandsAt(book: KiteBook, tag: string, k: nat)
    requires k < |book|
  {
    book[k].tag == Some(tag) && book[k].status != "REJECTED" && book[k].status != "CANCELLED"
  }

  function LiveCount(book: KiteBook, tag: string): nat {
    if book == [] then 0
    else
      var o := book[|book| - 1];
      LiveCount(book[..|book| - 1], tag) + if o.tag == Some(tag) && o.Live() then 1 else 0
  }

  function FindOrderByTag(book: KiteBook, tag: string): (r: Option<nat>)
    ensures r.Some? ==>
      && r.value < |book| && StandsAt(book, tag, r.value)
      && forall k :: 0 <= k < r.value ==> !StandsAt(book, tag, k)
    ensures r.None? <==> LiveCount(book, tag) == 0
    ensures r.None? ==> forall k :: 0 <= k < |book| ==> !StandsAt(book, tag, k)
  {
    if book == [] then None
    else
      var first := FindOrderByTag(book[..|book| - 1], tag);
      assert forall k :: 0 <= k < |book| - 1 ==> StandsAt(book, tag, k) == StandsAt(book[..|book| - 1], tag, k);
      if first.Some? then first
      else if book[|book| - 1].tag == Some(tag) && book[|book| - 1].Live() then Some(|book| - 1)
      else None
  }

  function Ours(tag: Option<string>): KiteOrder {
    KiteOrder(tag, "OPEN")
  }

  function Repeat(tag: Option<string>, n: nat): KiteBook {
    if n == 0 then [] else Repeat(tag, n - 1) + [Ours(tag)]
  }

  // ---- place_order ---------------------------------------------------------

  function LookedUp(p: Progress, tag: Option<string>, a: Attempt): Progress {
    p.(book := Move(p.book, a.before, tag))
  }

  /** The order an earlier attempt left behind, if this attempt sees it. */
  function Existing(p: Progress, tag: Option<string>, n: nat, a: Attempt): Option<nat> {
    if n > 0 && tag.Some? && a.lookupOk then FindOrderByTag(LookedUp(p, tag, a).book, tag.value) else None
  }

  /** The book a submission reaches; what was pending has been listed by now. */
  function AtSubmission(p: Progress, tag: Option<string>, a: Attempt): KiteBook {
    Move(LookedUp(p, tag, a).book + Repeat(tag, p.pending), a.between, tag)
  }

  /** It is accepted although an order of ours still stands. */
  predicate Doubles(p: Progress, tag: Option<string>, a: Attempt) {
    tag.Some? && !a.Accepted().Dropped? && LiveCount(AtSubmission(p, tag, a), tag.value) > 0
  }

  function Submitted(p: Progress, tag: Option<string>, a: Attempt): Progress {
    var book := AtSubmission(p, tag, a);
    var doubled := p.doubled + if Doubles(p, tag, a) then 1 else 0;
    match a.Accepted()
    case Listed => Progress(book + [Ours(tag)], 0, doubled)
    case ListedLate => Progress(book, 1, doubled)
    case Dropped => Progress(book, 0, doubled)
  }

  function Attempts(p: Progress, tag: Option<string>, script: seq<Attempt>, n: nat): (Progress, Outcome)
    requires n <= |script|
    decreases |script| - n
  {
    if n == |script| then (p, RaisedTransient)
    else
      var a := script[n];
      match Existing(p, tag, n, a)
      case Some(id) => (LookedUp(p, tag, a), Placed(id))
      case None =>
        var p' := Submitted(p, tag, a);
        match a.reply
        case Acknowledged => (p', Placed(|p'.book| - 1))
        case Refused => (p', RaisedRefused)
        case Transient => Attempts(p', tag, script, n + 1)
  }

  // ---- which attempt decides -----------------------------------------------

  /** Where things stand before attempt `k`, if it comes to that. */
  function Reached(p: Progress, tag: Option<string>, script: seq<Attempt>, k: nat): Progress
    requires k <= |script|
  {
    if k == 0 then p else Submitted(Reached(p, tag, script, k - 1), tag, script[k - 1])
  }

  /** Attempt `k` is a repeat whose look-up gets through and shows our order, first
      at `id`. */
  predicate FoundAt(p: Progress, tag: Option<string>, script: seq<Attempt>, k: nat, id: nat)
    requires k < |script|
  {
    var book := LookedUp(Reached(p, tag, script, k), tag, script[k]).book;
    && k > 0 && tag.Some? && script[k].lookupOk
    && id < |book| && StandsAt(book, tag.value, id)
    && forall j :: 0 <= j < id ==> !StandsAt(book, tag.value, j)
  }

  predicate SeenAt(p: Progress, tag: Option<string>, script: seq<Attempt>, k: nat)
    requires k < |script|
  {
    exists id :: 0 <= id < |LookedUp(Reached(p, tag, script, k), tag, script[k]).book| && FoundAt(p, tag, script, k, id)
  }

  /** It comes to attempt `k`: all before submitted, and all failed for the moment. */
  predicate ComesTo(p: Progress, tag: Option<string>, script: seq<Attempt>, k: nat)
    requires k <= |script|
  {
    forall j :: 0 <= j < k ==> !SeenAt(p, tag, script, j) && script[j].reply.Transient?
  }

  lemma ExistingIsFound(p: Progress, tag: Option<string>, script: seq<Attempt>, k: nat)
    requires k < |script|
    ensures var r := Existing(Reached(p, tag, script, k), tag, k, script[k]);
      && (r.Some? ==> FoundAt(p, tag, script, k, r.value)) && (r.Some? <==> SeenAt(p, tag, script, k))
  {
    hide LiveCount, Submitted;
    var q := Reached(p, tag, script, k);
    var r := Existing(q, tag, k, script[k]);
    if r.Some? { assert FoundAt(p, tag, script, k, r.value); }
  }

  lemma {:induction false} ComesThere(p: Progress, tag: Option<string>, script: seq<Attempt>, k: nat)
    requires k <= |script| && ComesTo(p, tag, script, k)
    ensures Attempts(p, tag, script, 0) == Attempts(Reached(p, tag, script, k), tag, script, k)
  {
    hide Existing, Submitted, SeenAt;
    if k > 0 {
      ComesThere(p, tag, script, k - 1);
      ExistingIsFound(p, tag, script, k - 1);
    }
  }

  /** The first attempt it comes to that is not a passing failure decides: an order
      of ours the look-up shows is returned, and nothing more submitted; else an
      acknowledged submission returns its new order, and a refused one is raised.
      Only after the last passing failure is that failure raised. */
  lemma DecidingAttempt(p: Progress, tag: Option<string>, script: seq<Attempt>, k: nat)
    requires k <= |script| && ComesTo(p, tag, script, k)
    ensures var (p', r) := Attempts(p, tag, script, 0);
      if k == |script| then r == RaisedTransient
      else if SeenAt(p, tag, script, k)
      then
        && r.Placed? && FoundAt(p, tag, script, k, r.id)
        && p' == LookedUp(Reached(p, tag, script, k), tag, script[k])
      else
        && (script[k].reply == Refused ==> r == RaisedRefused)
        && (script[k].reply == Acknowledged ==>
            && r.Placed? && |p'.book| == r.id + 1 && p'.book[r.id] == KiteOrder(tag, "OPEN")
            && p'.book[..r.id] == AtSubmission(Reached(p, tag, script, k), tag, script[k]))
  {
    hide FindOrderByTag, LiveCount, Moves, FoundAt, ComesTo, SeenAt, Reached, Repeat;
    ComesThere(p, tag, script, k);
    if k < |script| { ExistingIsFound(p, tag, script, k); }
  }

  // ---- at most one live order ----------------------------------------------

  lemma {:induction false} MovesAddNone(a: KiteBook, b: KiteBook, tag: string)
    requires Moves(a, b, Some(tag))
    ensures LiveCount(b, tag) <= LiveCount(a, tag)
    decreases |b|
  {
    if b != [] {
      var b' := b[..|b| - 1];
      if |a| == |b| {
        MovesAddNone(a[..|a| - 1], b', tag);
      } else {
        MovesAddNone(a, b', tag);
      }
    }
  }

  lemma {:induction false} RepeatCounts(a: KiteBook, tag: string, n: nat)
    ensures LiveCount(a + Repeat(Some(tag), n), tag) == LiveCount(a, tag) + n
  {
    if n == 0 {
      assert a + [] == a;
    } else {
      var all := a + Repeat(Some(tag), n);
      assert all[..|all| - 1] == a + Repeat(Some(tag), n - 1);
      RepeatCounts(a, tag, n - 1);
    }
  }

  /** Live orders of ours, those still to be listed included. */
  function Total(p: Progress, tag: string): nat {
    LiveCount(p.book, tag) + p.pending
  }

  lemma SubmittedTotal(p: Progress, tag: string, a: Attempt)
    ensures var before, p' := LiveCount(AtSubmission(p, Some(tag), a), tag), Submitted(p, Some(tag), a);
      && before <= LiveCount(LookedUp(p, Some(tag), a).book, tag) + p.pending <= Total(p, tag)
      && Total(p', tag) == before + if a.Accepted().Dropped? then 0 else 1
  {
    hide LiveCount, Repeat, Moves;
    var b := LookedUp(p, Some(tag), a).book;
    MovesAddNone(p.book, b, tag);
    RepeatCounts(b, tag, p.pending);
    var c := b + Repeat(Some(tag), p.pending);
    var d := AtSubmission(p, Some(tag), a);
    MovesAddNone(c, d, tag);
    OneMore(d, tag);
  }

  lemma OneMore(d: KiteBook, tag: string)
    ensures LiveCount(d + [Ours(Some(tag))], tag) == LiveCount(d, tag) + 1
  {
    assert (d + [Ours(Some(tag))])[..|d|] == d;
  }

  /** For every pattern of lost acknowledgements: one live order, plus at most one
      for every submission accepted while an earlier one stood. */
  lemma {:induction false} LiveOrdersBounded(p: Progress, tag: string, script: seq<Attempt>, n: nat)
    requires n <= |script| && Total(p, tag) <= p.doubled + 1
    ensures var (p', _) := Attempts(p, Some(tag), script, n); Total(p', tag) <= p'.doubled + 1
    decreases |script| - n
  {
    hide LiveCount, FindOrderByTag, Moves;
    if n < |script| {
      var a := script[n];
      if Existing(p, Some(tag), n, a).Some? {
        MovesAddNone(p.book, LookedUp(p, Some(tag), a).book, tag);
      } else {
        SubmittedTotal(p, tag, a);
        LiveOrdersBounded(Submitted(p, Some(tag), a), tag, script, n + 1);
      }
    }
  }

  /** After every attempt at most one order of ours is live or still to be listed. */
  predicate SingleThroughout(p: Progress, tag: string, script: seq<Attempt>, n: nat)
    requires n <= |script|
    decreases |script| - n
  {
    && Total(p, tag) <= 1
    && (n < |script| && Existing(p, Some(tag), n, script[n]).None? ==>
          var p' := Submitted(p, Some(tag), script[n]);
          Total(p', tag) <= 1 && (script[n].reply.Transient? ==> SingleThroughout(p', tag, script, n + 1)))
  }

  /** No attempt that is made is accepted while an order of ours stands. */
  predicate NeverDoubles(p: Progress, tag: string, script: seq<Attempt>, n: nat)
    requires n <= |script|
    decreases |script| - n
  {
    n < |script| && Existing(p, Some(tag), n, script[n]).None? ==>
      && !Doubles(p, Some(tag), script[n])
      && (script[n].reply.Transient? ==> NeverDoubles(Submitted(p, Some(tag), script[n]), tag, script, n + 1))
  }

  /** At most one live order carries the tag at every point if and only if no
      submission is accepted while an earlier one stands. */
  lemma {:induction false} AtMostOnceIff(p: Progress, tag: string, script: seq<Attempt>, n: nat)
    requires n <= |script| && Total(p, tag) <= 1
    ensures SingleThroughout(p, tag, script, n) <==> NeverDoubles(p, tag, script, n)
    decreases |script| - n
  {
    hide LiveCount, FindOrderByTag, Moves, AtSubmission;
    if n < |script| && Existing(p, Some(tag), n, script[n]).None? {
      var p' := Submitted(p, Some(tag), script[n]);
      SubmittedTotal(p, tag, script[n]);
      if Total(p', tag) <= 1 {
        AtMostOnceIff(p', tag, script, n + 1);
      }
    }
  }

  /** And that takes a blind look-up, on a repeat: an order of ours was live or
      pending when the list was read, and the read failed or came before the order
      was listed. */
  lemma DoublesAreBlind(p: Progress, tag: string, n: nat, a: Attempt)
    requires Existing(p, Some(tag), n, a).None? && Doubles(p, Some(tag), a)
    ensures LiveCount(LookedUp(p, Some(tag), a).book, tag) + p.pending > 0
    ensures n == 0 || !a.lookupOk || (p.pending > 0 && LiveCount(LookedUp(p, Some(tag), a).book, tag) == 0)
  {
    hide LiveCount, Moves;
    SubmittedTotal(p, tag, a);
  }

  // ---- what the look-up can promise ----------------------------------------

  /** Our orders that stand when the list is read: those live, and those accepted
      but not listed yet. */
  function Standing(p: Progress, tag: string, a: Attempt): nat {
    LiveCount(LookedUp(p, Some(tag), a).book, tag) + p.pending
  }

  /** The same attempt up to its look-up, and any broker after it. */
  function Facing(a: Attempt, between: KiteBook, acceptance: Acceptance, reply: Reply): Attempt {
    a.(between := between, acceptance := acceptance, reply := reply)
  }

  /** Submitting after this look-up leaves one order at most, whatever the broker
      does next. */
  ghost predicate SafeToSubmit(p: Progress, tag: string, a: Attempt) {
    forall between, acceptance, reply ::
      Total(Submitted(p, Some(tag), Facing(a, between, acceptance, reply)), tag) <= 1
  }

  /** A submission is safe against every broker if and only if nothing of ours stands
      when the list is read. */
  lemma SafeToSubmitIff(p: Progress, tag: string, a: Attempt)
    requires Total(p, tag) <= 1
    ensures SafeToSubmit(p, tag, a) <==> Standing(p, tag, a) == 0
  {
    hide LiveCount, Moves, Repeat, Submitted;
    var b := LookedUp(p, Some(tag), a).book + Repeat(Some(tag), p.pending);
    var worst := Facing(a, b, Listed, Transient);
    RepeatCounts(LookedUp(p, Some(tag), a).book, tag, p.pending);
    SubmittedTotal(p, tag, worst);
    assert Total(Submitted(p, Some(tag), worst), tag) == Standing(p, tag, a) + 1;
    if Standing(p, tag, a) == 0 {
      forall between, acceptance, reply
        ensures Total(Submitted(p, Some(tag), Facing(a, between, acceptance, reply)), tag) <= 1
      {
        SubmittedTotal(p, tag, Facing(a, between, acceptance, reply));
      }
    }
  }

  /** Every submission the script makes is safe against every broker. */
  ghost predicate SafeThroughout(p: Progress, tag: string, script: seq<Attempt>, n: nat)
    requires n <= |script|
    decreases |script| - n
  {
    n < |script| && Existing(p, Some(tag), n, script[n]).None? ==>
      && SafeToSubmit(p, tag, script[n])
      && (script[n].reply.Transient? ==> SafeThroughout(Submitted(p, Some(tag), script[n]), tag, script, n + 1))
  }

  /** At every submission the script makes, nothing of ours stands when the list is
      read. */
  predicate ClearThroughout(p: Progress, tag: string, script: seq<Attempt>, n: nat)
    requires n <= |script|
    decreases |script| - n
  {
    n < |script| && Existing(p, Some(tag), n, script[n]).None? ==>
      && Standing(p, tag, script[n]) == 0
      && (script[n].reply.Transient? ==> ClearThroughout(Submitted(p, Some(tag), script[n]), tag, script, n + 1))
  }

  /** Over whole scripts: resubmission is safe against every broker if and only if
      nothing of ours stands at any look-up that lets a submission through; and then
      at most one order of ours ever stands. */
  lemma {:induction false} ResubmissionSafeIff(p: Progress, tag: string, script: seq<Attempt>, n: nat)
    requires n <= |script| && Total(p, tag) <= 1
    ensures SafeThroughout(p, tag, script, n) <==> ClearThroughout(p, tag, script, n)
    ensures ClearThroughout(p, tag, script, n) ==> SingleThroughout(p, tag, script, n)
    decreases |script| - n
  {
    hide LiveCount, FindOrderByTag, Moves, Submitted, SafeToSubmit, Standing;
    if n < |script| && Existing(p, Some(tag), n, script[n]).None? {
      var a := script[n];
      SafeToSubmitIff(p, tag, a);
      if Standing(p, tag, a) == 0 {
        OwnScript(p, tag, a);
        if a.reply.Transient? {
          ResubmissionSafeIff(Submitted(p, Some(tag), a), tag, script, n + 1);
        }
      }
    }
  }

  lemma OwnScript(p: Progress, tag: string, a: Attempt)
    requires SafeToSubmit(p, tag, a)
    ensures Total(Submitted(p, Some(tag), a), tag) <= 1
  {
    hide Submitted, LiveCount;
    assert Facing(a, a.between, a.acceptance, a.reply) == a;
  }

  /** What the code's guard sees of it: a look-up that got through and found nothing
      leaves only orders the list did not have yet. */
  lemma LookupSees(p: Progress, tag: string, n: nat, a: Attempt)
    requires n > 0 && a.lookupOk && Existing(p, Some(tag), n, a).None?
    ensures Standing(p, tag, a) == p.pending
  {
  }

  predicate Reliable(a: Attempt) {
    a.lookupOk && !a.acceptance.ListedLate?
  }

  /** Reliable look-ups are never blind. */
  lemma {:induction false} ReliableNeverDoubles(p: Progress, tag: string, script: seq<Attempt>, n: nat)
    requires n <= |script| && p.pending == 0 && (n == 0 ==> LiveCount(p.book, tag) == 0)
    requires forall k :: n <= k < |script| ==> Reliable(script[k])
    ensures NeverDoubles(p, tag, script, n)
    decreases |script| - n
  {
    hide LiveCount, FindOrderByTag, Moves, AtSubmission;
    if n < |script| && Existing(p, Some(tag), n, script[n]).None? {
      if Doubles(p, Some(tag), script[n]) {
        DoublesAreBlind(p, tag, n, script[n]);
        SubmittedTotal(p, tag, script[n]);
      }
      ReliableNeverDoubles(Submitted(p, Some(tag), script[n]), tag, script, n + 1);
    }
  }

  lemma {:induction false} SingleAtTheEnd(p: Progress, tag: string, script: seq<Attempt>, n: nat)
    requires n <= |script| && SingleThroughout(p, tag, script, n)
    ensures Total(Attempts(p, Some(tag), script, n).0, tag) <= 1
    decreases |script| - n
  {
    hide LiveCount, FindOrderByTag, Moves, Submitted;
    if n < |script| {
      var a := script[n];
      if Existing(p, Some(tag), n, a).Some? {
        MovesAddNone(p.book, LookedUp(p, Some(tag), a).book, tag);
      } else if a.reply.Transient? {
        SingleAtTheEnd(Submitted(p, Some(tag), a), tag, script, n + 1);
      }
    }
  }

  /** With every look-up getting through, at most one live order ever carries the
      tag, whichever acknowledgements were lost. */
  lemma {:induction false} AtMostOnce(book: KiteBook, tag: string, script: seq<Attempt>)
    requires LiveCount(book, tag) == 0
    requires forall k :: 0 <= k < |script| ==> Reliable(script[k])
    ensures SingleThroughout(Progress(book, 0, 0), tag, script, 0)
    ensures Total(Attempts(Progress(book, 0, 0), Some(tag), script, 0).0, tag) <= 1
  {
    hide LiveCount, SingleThroughout, Existing, Submitted;
    ReliableNeverDoubles(Progress(book, 0, 0), tag, script, 0);
    AtMostOnceIff(Progress(book, 0, 0), tag, script, 0);
    SingleAtTheEnd(Progress(book, 0, 0), tag, script, 0);
  }

  /** Whatever id comes back names an order with the tag. */
  lemma {:induction false} ReturnedIdIsOurs(p: Progress, tag: Option<string>, script: seq<Attempt>, n: nat)
    requires n <= |script|
    ensures var (p', r) := Attempts(p, tag, script, n);
      r.Placed? ==> r.id < |p'.book| && p'.book[r.id].tag == tag
    decreases |script| - n
  {
    if n < |script| && Existing(p, tag, n, script[n]).None? && script[n].reply.Transient? {
      ReturnedIdIsOurs(Submitted(p, tag, script[n]), tag, script, n + 1);
    }
  }

  lemma TwoLive(tag: string)
    ensures LiveCount([Ours(Some(tag)), Ours(Some(tag))], tag) == 2
  {
    var book := [Ours(Some(tag)), Ours(Some(tag))];
    assert book[..1][..0] == [];
    assert LiveCount(book[..1], tag) == 1;
  }

  /** A lost acknowledgement followed by a failed look-up, or by a look-up that
      runs before the order is listed, leaves two live orders. */
  lemma MissedLookupDuplicates(tag: string, blind: Attempt)
    requires
      || blind == Attempt([], false, [], Listed, Acknowledged)
      || blind == Attempt([], true, [], Listed, Acknowledged)
    ensures var lost := Attempt([], true, [], if blind.lookupOk then ListedLate else Listed, Transient);
      var (p, r) := Attempts(Progress([], 0, 0), Some(tag), [lost, blind, blind], 0);
      && p.book == [Ours(Some(tag)), Ours(Some(tag))] && LiveCount(p.book, tag) == 2 && r == Placed(1)
  {
    var lost := Attempt([], true, [], if blind.lookupOk then ListedLate else Listed, Transient);
    var script := [lost, blind, blind];
    TwoLive(tag);
    assert Repeat(Some(tag), 1) == Repeat(Some(tag), 0) + [Ours(Some(tag))] == [Ours(Some(tag))];
    var p1 := Submitted(Progress([], 0, 0), Some(tag), lost);
    assert p1 == if blind.lookupOk then Progress([], 1, 0) else Progress([Ours(Some(tag))], 0, 0);
    assert Existing(p1, Some(tag), 1, blind).None?;
    hide LiveCount, FindOrderByTag;
    var p2 := Submitted(p1, Some(tag), blind);
    assert p2.book == [Ours(Some(tag)), Ours(Some(tag))];
    assert Attempts(p1, Some(tag), script, 1) == (p2, Placed(1));
  }

  // ---- the loop itself -----------------------------------------------------

  class ZerodhaBroker {
    var orders: KiteBook
    var pending: nat
    ghost var doubled: nat

    constructor (book: KiteBook)
      ensures orders == book && pending == 0 && doubled == 0
    {
      orders := book;
      pending := 0;
      doubled := 0;
    }

    ghost function State(): Progress
      reads this
    {
      Progress(orders, pending, doubled)
    }

    /** The first listed order that carries the tag and is still live. */
    method FindByTag(tag: string) returns (r: Option<nat>)
      ensures r == FindOrderByTag(orders, tag)
    {
      for k := 0 to |orders|
        invariant FindOrderByTag(orders[..k], tag).None?
      {
        assert orders[..k + 1][..k] == orders[..k];
        if orders[k].tag == Some(tag) && orders[k].Live() {
          FirstStays(orders, tag, k + 1);
          return Some(k);
        }
      }
      assert orders[..|orders|] == orders;
      return None;
    }

    /** Three attempts; from the second on an order already carrying the tag is
        reused. The adversary's moves come from `script`. */
    method PlaceOrder(tag: Option<string>, script: seq<Attempt>) returns (r: Outcome)
      requires |script| == 3
      modifies this
      ensures (State(), r) == Attempts(old(State()), tag, script, 0)
    {
      hide LiveCount, FindOrderByTag, Moves, Submitted;
      for n := 0 to 3
        invariant Attempts(State(), tag, script, n) == Attempts(old(State()), tag, script, 0)
      {
        var a := script[n];
        ghost var p := State();
        orders := Move(orders, a.before, tag);
        if n > 0 && tag.Some? && a.lookupOk {
          var existing := FindByTag(tag.value);
          if existing.Some? {
            return Placed(existing.value);
          }
        }
        Submit(tag, a, p);
        match a.reply {
          case Acknowledged => return Placed(|orders| - 1);
          case Refused => return RaisedRefused;
          case Transient =>
        }
      }
      return RaisedTransient;
    }

    /** One submission; what the broker had still to list is listed with it. */
    method Submit(tag: Option<string>, a: Attempt, ghost p: Progress)
      requires p.pending == pending && p.doubled == doubled && orders == LookedUp(p, tag, a).book
      modifies this
      ensures State() == Submitted(p, tag, a)
    {
      doubled := doubled + if Doubles(p, tag, a) then 1 else 0;
      orders := Move(orders + Repeat(tag, pending), a.between, tag);
      pending := if a.Accepted().ListedLate? then 1 else 0;
      if a.Accepted().Listed? {
        orders := orders + [Ours(tag)];
      }
    }
  }

  lemma {:induction false} FirstStays(book: KiteBook, tag: string, k: nat)
    requires k <= |book| && FindOrderByTag(book[..k], tag).Some?
    ensures FindOrderByTag(book, tag) == FindOrderByTag(book[..k], tag)
  {
    if k == |book| {
      assert book[..k] == book;
    } else {
      assert book[..|book| - 1][..k] == book[..k];
      FirstStays(book[..|book| - 1], tag, k);
    }
  }
}
