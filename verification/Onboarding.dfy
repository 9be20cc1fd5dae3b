/**
Onboarding of a restaurant: the entity with its checklist and domain events, the payout rows, and
the commands that lead from draft to launch.  Where the code dereferences an optional field that
is missing, the model's outcome is Panic.  Each command is one atomic step.
*/
module Onboarding {
  import opened Wrappers

  datatype Status = Draft | Review | Approved | Active | Inactive | Disabled | Rejected

  datatype Item = Basic | Contact | AddressItem | Delivery | Payout | OpeningHours

  datatype Address = Address(house: string, street: string, postalCode: string, city: string)

  const NO_ADDRESS: Address := Address("", "", "", "")

  datatype Place = Place(lat: int, lon: int, timezone: string)

  datatype Data = Data(
    name: string, slug: Option<string>, email: Option<string>,
    checklist: map<Item, bool>, status: Status, address: Address,
    lat: Option<int>, lon: Option<int>, timezone: Option<string>,
    delivery: nat, hours: nat, tags: nat,      // sections whose content does not matter here
    updatedAt: Option<int>)

  datatype DomainEvent =
    | ReadyForReview(name: string)
    | RestaurantApproved(name: string, email: string)
    | RestaurantLaunched
    | RestaurantUpdated
    | PizzaUpdated
    | ToppingPricesUpdated

  // ---- the entity ----

  function NewChecklist(): map<Item, bool> {
    map[Basic := false, Contact := false, AddressItem := false, Delivery := false, Payout := false, OpeningHours := false]
  }

  const REQUIRED_ITEMS: seq<Item> := [Basic, Contact, AddressItem, Delivery, Payout, OpeningHours]

  predicate Done(checklist: map<Item, bool>, item: Item) {
    item in checklist && checklist[item]
  }

  predicate Completed(checklist: map<Item, bool>) {
    forall item: Item :: Done(checklist, item)
  }

  function CompleteItem(d: Data, item: Item): (Data, seq<DomainEvent>) {
    var d' := d.(checklist := d.checklist[item := true]);
    if d'.status.Draft? && Completed(d'.checklist) then (d'.(status := Review), [ReadyForReview(d.name)]) else (d', [])
  }

  predicate Launched(status: Status) {
    status.Active? || status.Inactive?
  }

  /** The item is ticked off, if there is one, and a draft with all six items ticked goes to review. */
  ghost predicate Ticked(d: Data, d': Data, item: Option<Item>) {
    && d'.checklist.Keys == d.checklist.Keys + (if item.Some? then {item.value} else {})
    && (forall i :: i in d'.checklist ==> d'.checklist[i] == (Some(i) == item || d.checklist[i]))
    && (if d.status == Draft && item.Some? && (forall i: Item :: i in d'.checklist && d'.checklist[i])
        then d'.status == Review else d'.status == d.status)
  }

  lemma CompletedItems(checklist: map<Item, bool>)
    ensures Completed(checklist) <==> forall item: Item :: item in checklist && checklist[item]
  {
    forall item: Item | Completed(checklist) ensures item in checklist && checklist[item] {
      assert Done(checklist, item);
    }
  }

  lemma CompleteTicks(d: Data, item: Item, d': Data)
    requires d'.checklist == CompleteItem(d, item).0.checklist && d'.status == CompleteItem(d, item).0.status
    ensures Ticked(d, d', Some(item))
  {
    CompletedItems(d'.checklist);
  }

  datatype Approval = Accepted | NotPendingReview | NilEmail

  class Restaurant {
    var data: Data
    var events: seq<DomainEvent>

    constructor (data: Data)
      ensures this.data == data && events == []
    {
      this.data := data;
      events := [];
    }

    /** A missing entry of the checklist counts as not done. */
    method IsCompleted() returns (all: bool)
      ensures all <==> forall item: Item :: item in data.checklist && data.checklist[item]
    {
      for i := 0 to |REQUIRED_ITEMS|
        invariant forall j :: 0 <= j < i ==> Done(data.checklist, REQUIRED_ITEMS[j])
      {
        var item := REQUIRED_ITEMS[i];
        if item !in data.checklist || !data.checklist[item] {
          assert !Done(data.checklist, item);
          return false;
        }
      }
      forall item: Item ensures Done(data.checklist, item) {
        assert item == REQUIRED_ITEMS[match item
                                      case Basic => 0
                                      case Contact => 1
                                      case AddressItem => 2
                                      case Delivery => 3
                                      case Payout => 4
                                      case OpeningHours => 5];
      }
      CompletedItems(data.checklist);
      return true;
    }

    method CompleteChecklistItem(item: Item)
      modifies this
      ensures Ticked(old(data), data, Some(item))
      ensures data == old(data).(checklist := data.checklist, status := data.status)
      ensures events == old(events) + if data.status == old(data).status then [] else [ReadyForReview(old(data).name)]
      ensures data == CompleteItem(old(data), item).0
      ensures events == old(events) + CompleteItem(old(data), item).1
    {
      data := data.(checklist := data.checklist[item := true]);
      var all := IsCompleted();
      if data.status.Draft? && all {
        data := data.(status := Review);
        events := events + [ReadyForReview(data.name)];
      }
      CompletedItems(data.checklist);
    }

    method Approve() returns (r: Approval)
      modifies this
      ensures r == if !old(data).status.Review? then NotPendingReview
                   else if old(data).email.None? then NilEmail else Accepted
      ensures r.NotPendingReview? ==> data == old(data) && events == old(events)
      ensures r.Accepted? ==>
                && data == old(data).(status := Approved)
                && events == old(events) + [RestaurantApproved(data.name, data.email.value)]
    {
      if !data.status.Review? {
        return NotPendingReview;
      }
      data := data.(status := Approved);
      if data.email.None? {
        return NilEmail;
      }
      events := events + [RestaurantApproved(data.name, data.email.value)];
      return Accepted;
    }

    method Launch() returns (ok: bool)
      modifies this
      ensures ok == old(data).status.Approved?
      ensures data == if ok then old(data).(status := Active) else old(data)
      ensures events == old(events) + if ok then [RestaurantLaunched] else []
    {
      ok := data.status.Approved?;
      if ok {
        data := data.(status := Active);
        events := events + [RestaurantLaunched];
      }
    }

    /** NotifyUpdated, NotifyPizzaUpdated and NotifyToppingPricesUpdated: silent before the launch. */
    method Notify(event: DomainEvent)
      modifies this`events
      ensures events == old(events) + if data.status in {Active, Inactive} then [event] else []
    {
      if !Launched(data.status) {
        return;
      }
      events := events + [event];
    }

    method PullEvents() returns (pulled: seq<DomainEvent>)
      modifies this`events
      ensures pulled == old(events) && events == []
    {
      pulled := events;
      events := [];
    }
  }

  // ---- payloads ----

  datatype Payload =
    | Ready(name: string)
    | ApprovedRow(name: string, email: string)
    | LaunchedRow(slug: string, place: Place, updatedAt: int)
    | UpdatedRow(slug: string, place: Place, updatedAt: int)
    | PizzaRow
    | ToppingsRow

  datatype Enricher = NoEnricher | UpdatedEnricher | LaunchedEnricher | PizzaEnricher | ToppingsEnricher

  datatype Built = Row(payload: Payload) | Dropped | NilField

  predicate Describable(d: Data) {
    d.slug.Some? && d.lat.Some? && d.lon.Some? && d.timezone.Some? && d.updatedAt.Some?
  }

  /** The payload builders of launched and updated dereference slug, coordinates, timezone and updatedAt. */
  function Build(d: Data, enricher: Enricher, e: DomainEvent): Built {
    match e
    case ReadyForReview(name) => Row(Ready(name))
    case RestaurantApproved(name, email) => Row(ApprovedRow(name, email))
    case RestaurantLaunched =>
      if !enricher.LaunchedEnricher? then Dropped
      else if !Describable(d) then NilField
      else Row(LaunchedRow(d.slug.value, Place(d.lat.value, d.lon.value, d.timezone.value), d.updatedAt.value))
    case RestaurantUpdated =>
      if !enricher.UpdatedEnricher? then Dropped
      else if !Describable(d) then NilField
      else Row(UpdatedRow(d.slug.value, Place(d.lat.value, d.lon.value, d.timezone.value), d.updatedAt.value))
    case PizzaUpdated => if enricher.PizzaEnricher? then Row(PizzaRow) else Dropped
    case ToppingPricesUpdated => if enricher.ToppingsEnricher? then Row(ToppingsRow) else Dropped
  }

  /** The rows of the events, in order; None if building one of them dereferences nil. */
  function RowsFor(d: Data, enricher: Enricher, events: seq<DomainEvent>): Option<seq<Payload>> {
    if events == [] then Some([])
    else
      var before := RowsFor(d, enricher, events[..|events| - 1]);
      var last := Build(d, enricher, events[|events| - 1]);
      if before.None? || last.NilField? then None
      else Some(before.value + if last.Row? then [last.payload] else [])
  }

  method DispatchEvents(res: Restaurant, enricher: Enricher) returns (rows: Option<seq<Payload>>)
    modifies res`events
    ensures rows == RowsFor(res.data, enricher, old(res.events)) && res.events == []
  {
    var pulled := res.PullEvents();
    var built: seq<Payload> := [];
    for i := 0 to |pulled|
      invariant RowsFor(res.data, enricher, pulled[..i]) == Some(built)
    {
      assert pulled[..i + 1][..i] == pulled[..i];
      var one := Build(res.data, enricher, pulled[i]);
      if one.NilField? {
        NilStays(res.data, enricher, pulled, i + 1);
        return None;
      }
      assert built + [] == built;
      if one.Row? {
        built := built + [one.payload];
      }
    }
    assert pulled[..|pulled|] == pulled;
    return Some(built);
  }

  lemma {:induction false} NilStays(d: Data, enricher: Enricher, events: seq<DomainEvent>, n: nat)
    requires n <= |events| && RowsFor(d, enricher, events[..n]).None?
    ensures RowsFor(d, enricher, events).None?
    decreases |events| - n
  {
    if n == |events| {
      assert events[..n] == events;
    } else {
      assert events[..n + 1][..n] == events[..n];
      NilStays(d, enricher, events, n + 1);
    }
  }

  lemma OneRow(d: Data, enricher: Enricher, e: DomainEvent)
    ensures RowsFor(d, enricher, [e])
         == match Build(d, enricher, e)
            case Row(p) => Some([p])
            case Dropped => Some([])
            case NilField => None
  {
    assert [e][..0] == [];
    assert RowsFor(d, enricher, [e][..0]) == Some([]);
    var none: seq<Payload> := [];
    assert none + none == none;
    if Build(d, enricher, e).Row? {
      assert none + [Build(d, enricher, e).payload] == [Build(d, enricher, e).payload];
    }
  }

  // ---- payout rows ----

  datatype PayoutStatus = Unverified | ActivePayout | Superseded

  datatype PayoutRow = PayoutRow(holder: string, iban: string, status: PayoutStatus)

  predicate HasStatus(payouts: map<nat, PayoutRow>, status: PayoutStatus) {
    exists id :: id in payouts && payouts[id].status == status
  }

  function Promoted(payouts: map<nat, PayoutRow>): map<nat, PayoutRow> {
    map id | id in payouts :: if payouts[id].status.Unverified? then payouts[id].(status := ActivePayout) else payouts[id]
  }

  // ---- the commands ----

  datatype State = State(data: Data, payouts: map<nat, PayoutRow>, outbox: seq<Payload>)

  datatype Outcome = Stored | NotFoundOrConflict | Unavailable | Panic

  /** Saving sets updatedAt; a failed save or a nil field leaves the stored state as it was. */
  function Commit(s: State, d: Data, payouts: map<nat, PayoutRow>, events: seq<DomainEvent>, enricher: Enricher,
                  saved: bool, now: int): (State, Outcome) {
    var d' := d.(updatedAt := Some(now));
    var rows := RowsFor(d', enricher, events);
    if !saved then (s, Unavailable)
    else if rows.None? then (s, Panic)
    else (State(d', payouts, s.outbox + rows.value), Stored)
  }

  /** Marks an item done and announces the update, as the profile commands begin. */
  function Touch(d: Data, item: Option<Item>): (Data, seq<DomainEvent>) {
    var c := if item.Some? then CompleteItem(d, item.value) else (d, []);
    (c.0, c.1 + if Launched(c.0.status) then [RestaurantUpdated] else [])
  }

  /** A profile command tells of the review it leads to, or of the update once launched. */
  ghost predicate ToldOf(d: Data, d': Data, outbox: seq<Payload>, outbox': seq<Payload>) {
    if d'.status in {Active, Inactive} then
      && d'.slug.Some? && d'.lat.Some? && d'.lon.Some? && d'.timezone.Some? && d'.updatedAt.Some?
      && outbox' == outbox + [UpdatedRow(d'.slug.value, Place(d'.lat.value, d'.lon.value, d'.timezone.value),
                                         d'.updatedAt.value)]
    else outbox' == outbox + if d'.status == d.status then [] else [Ready(d.name)]
  }

  /** The rows of a profile command's events, built from the data as it is saved. */
  lemma TouchTells(before: Data, item: Option<Item>, d: Data, outbox: seq<Payload>)
    requires d.status == Touch(before, item).0.status && d.updatedAt.Some?
    ensures var rows := RowsFor(d, UpdatedEnricher, Touch(before, item).1);
            if d.status in {Active, Inactive} && (d.slug.None? || d.lat.None? || d.lon.None? || d.timezone.None?)
            then rows.None?
            else rows.Some? && ToldOf(before, d, outbox, outbox + rows.value)
  {
    assert Touch(before, item).1 == if Launched(d.status) then [RestaurantUpdated]
                                    else if d.status != before.status then [ReadyForReview(before.name)] else [];
    OneRow(d, UpdatedEnricher, ReadyForReview(before.name));
    OneRow(d, UpdatedEnricher, RestaurantUpdated);
  }

  lemma ProfileOutcome(s: State, item: Option<Item>, d: Data, saved: bool, now: int)
    requires d.status == Touch(s.data, item).0.status
    ensures var (s', outcome) := Commit(s, d, s.payouts, Touch(s.data, item).1, UpdatedEnricher, saved, now);
            && outcome != NotFoundOrConflict && (outcome != Stored ==> s' == s)
            && (outcome == Unavailable <==> !saved)
            && (outcome == Panic <==>
                && saved && d.status in {Active, Inactive}
                && (d.slug.None? || d.lat.None? || d.lon.None? || d.timezone.None?))
  {
    TouchTells(s.data, item, d.(updatedAt := Some(now)), s.outbox);
  }

  lemma ProfileStored(s: State, item: Option<Item>, d: Data, saved: bool, now: int)
    requires var t := Touch(s.data, item).0; d.status == t.status && d.checklist == t.checklist
    ensures var (s', outcome) := Commit(s, d, s.payouts, Touch(s.data, item).1, UpdatedEnricher, saved, now);
            outcome == Stored ==>
              && s'.data == d.(updatedAt := Some(now)) && s'.payouts == s.payouts
              && Ticked(s.data, s'.data, item) && ToldOf(s.data, s'.data, s.outbox, s'.outbox)
  {
    var d' := d.(updatedAt := Some(now));
    if item.Some? {
      CompleteTicks(s.data, item.value, d');
    }
    TouchTells(s.data, item, d', s.outbox);
  }

  datatype Request =
    | UpdateAddress(address: Address, geocoded: Option<Place>, slug: Option<string>)
    | UpdateContact(email: Option<string>)
    | UpdateDelivery(delivery: nat)
    | UpdateOpeningHours(hours: nat)
    | UpdateTags(tags: nat)
    | CreatePayout(id: nat, holder: string, iban: string)
    | UpdatePayout(holder: string, iban: string)
    | Approve
    | Launch(readyPizzas: nat)
    | ChangePizza
    | ChangeToppingPrices

  const MIN_PIZZAS_TO_LAUNCH: int := 2

  function OnAddress(s: State, address: Address, geocoded: Option<Place>, slug: Option<string>, saved: bool, now: int)
    : (State, Outcome) {
    var d := s.data;
    if d.address == address && (d.lat.None? || d.lon.None? || d.timezone.None?) then (s, Panic)
    else if d.address != address && geocoded.None? then (s, Unavailable)
    else
      var place := if d.address == address then Place(d.lat.value, d.lon.value, d.timezone.value) else geocoded.value;
      if slug.None? then (s, Unavailable)
      else
        var t := Touch(d, Some(AddressItem));
        Commit(s, t.0.(slug := slug, address := address, lat := Some(place.lat), lon := Some(place.lon),
                       timezone := Some(place.timezone)),
               s.payouts, t.1, UpdatedEnricher, saved, now)
  }

  function OnCreatePayout(s: State, id: nat, holder: string, iban: string, saved: bool, now: int): (State, Outcome) {
    var c := CompleteItem(s.data, Payout);
    if id in s.payouts || HasStatus(s.payouts, Unverified) then (s, NotFoundOrConflict)
    else Commit(s, c.0, s.payouts[id := PayoutRow(holder, iban, Unverified)], c.1, NoEnricher, saved, now)
  }

  function OnUpdatePayout(s: State, holder: string, iban: string): (State, Outcome) {
    if !HasStatus(s.payouts, Unverified) then (s, NotFoundOrConflict)
    else
      (s.(payouts := map id | id in s.payouts ::
                       if s.payouts[id].status.Unverified? then s.payouts[id].(holder := holder, iban := iban)
                       else s.payouts[id]), Stored)
  }

  function OnApprove(s: State, saved: bool, now: int): (State, Outcome) {
    var d := s.data;
    if !d.status.Review? then (s, NotFoundOrConflict)
    else if d.email.None? then (s, Panic)
    else if !HasStatus(s.payouts, Unverified) || HasStatus(s.payouts, ActivePayout) then (s, Unavailable)
    else
      Commit(s, d.(status := Approved), Promoted(s.payouts), [RestaurantApproved(d.name, d.email.value)],
             NoEnricher, saved, now)
  }

  function OnLaunch(s: State, readyPizzas: nat, saved: bool, now: int): (State, Outcome) {
    if readyPizzas < MIN_PIZZAS_TO_LAUNCH then (s, NotFoundOrConflict)
    else if !s.data.status.Approved? then (s, NotFoundOrConflict)
    else Commit(s, s.data.(status := Active), s.payouts, [RestaurantLaunched], LaunchedEnricher, saved, now)
  }

  /** Pizza and topping commands only announce: they do not save the restaurant. */
  function OnMenuChange(s: State, event: DomainEvent, enricher: Enricher, saved: bool): (State, Outcome) {
    var rows := RowsFor(s.data, enricher, if Launched(s.data.status) then [event] else []);
    if !saved then (s, Unavailable)
    else if rows.None? then (s, Panic)
    else (s.(outbox := s.outbox + rows.value), Stored)
  }

  function On(s: State, r: Request, saved: bool, now: int): (State, Outcome) {
    match r
    case UpdateAddress(address, geocoded, slug) => OnAddress(s, address, geocoded, slug, saved, now)
    case UpdateContact(email) =>
      var t := Touch(s.data, Some(Contact));
      Commit(s, t.0.(email := email), s.payouts, t.1, UpdatedEnricher, saved, now)
    case UpdateDelivery(delivery) =>
      var t := Touch(s.data, Some(Delivery));
      Commit(s, t.0.(delivery := delivery), s.payouts, t.1, UpdatedEnricher, saved, now)
    case UpdateOpeningHours(hours) =>
      var t := Touch(s.data, Some(OpeningHours));
      Commit(s, t.0.(hours := hours), s.payouts, t.1, UpdatedEnricher, saved, now)
    case UpdateTags(tags) =>
      var t := Touch(s.data, None);
      Commit(s, t.0.(tags := tags), s.payouts, t.1, UpdatedEnricher, saved, now)
    case CreatePayout(id, holder, iban) => OnCreatePayout(s, id, holder, iban, saved, now)
    case UpdatePayout(holder, iban) => OnUpdatePayout(s, holder, iban)
    case Approve => OnApprove(s, saved, now)
    case Launch(readyPizzas) => OnLaunch(s, readyPizzas, saved, now)
    case ChangePizza => OnMenuChange(s, PizzaUpdated, PizzaEnricher, saved)
    case ChangeToppingPrices => OnMenuChange(s, ToppingPricesUpdated, ToppingsEnricher, saved)
  }

  // ---- the slug ----

  /** The slugs tried, in order: the base, then the base with -2 to -9. */
  function Candidate(base: string, k: nat): string
    requires k < 9
  {
    if k == 0 then base else base + "-" + ['0' + (k + 1) as char]
  }

  /** The first candidate that no other restaurant has. */
  method GenerateUniqueSlug(base: string, taken: set<string>) returns (slug: Option<string>)
    ensures slug.None? <==> base in taken && forall c :: '2' <= c <= '9' ==> base + "-" + [c] in taken
    ensures slug.Some? ==>
              && slug.value !in taken
              && (base !in taken ==> slug.value == base)
              && (base in taken ==>
                    exists c :: '2' <= c <= '9' && slug.value == base + "-" + [c]
                                && forall b :: '2' <= b < c ==> base + "-" + [b] in taken)
    ensures slug.None? <==> forall k :: 0 <= k < 9 ==> Candidate(base, k) in taken
    ensures slug.Some? ==>
              exists k :: 0 <= k < 9 && slug.value == Candidate(base, k) && slug.value !in taken
                          && forall j :: 0 <= j < k ==> Candidate(base, j) in taken
  {
    assert Candidate(base, 0) == base;
    if base !in taken {
      return Some(base);
    }
    for i := 2 to 10
      invariant forall c :: '2' <= c < '0' + i as char ==> base + "-" + [c] in taken
      invariant forall j :: 0 <= j < i - 1 ==> Candidate(base, j) in taken
    {
      var extended := base + "-" + ['0' + i as char];
      assert extended == Candidate(base, i - 1);
      if extended !in taken {
        return Some(extended);
      }
    }
    return None;
  }

  class OnboardingService {
    var data: Data
    var payouts: map<nat, PayoutRow>
    var outbox: seq<Payload>

    ghost function View(): State
      reads this
    {
      State(data, payouts, outbox)
    }

    /** Saves the changed entity and its events in one transaction. */
    method Store(res: Restaurant, newPayouts: map<nat, PayoutRow>, enricher: Enricher, saved: bool, now: int)
      returns (outcome: Outcome)
      modifies this, res
      ensures (View(), outcome)
           == Commit(old(View()), old(res.data), newPayouts, old(res.events), enricher, saved, now)
    {
      if !saved {
        return Unavailable;
      }
      res.data := res.data.(updatedAt := Some(now));
      var rows := DispatchEvents(res, enricher);
      if rows.None? {
        return Panic;
      }
      data := res.data;
      payouts := newPayouts;
      outbox := outbox + rows.value;
      return Stored;
    }

    /** Saves the change of a profile command with its announcement. */
    method StoreUpdate(res: Restaurant, ghost item: Option<Item>, saved: bool, now: int) returns (outcome: Outcome)
      requires res.events == Touch(data, item).1
      requires res.data.status == Touch(data, item).0.status && res.data.checklist == Touch(data, item).0.checklist
      modifies this, res
      ensures outcome == Unavailable <==> !saved
      ensures outcome == Panic <==>
              && saved && old(res.data).status in {Active, Inactive}
              && (|| old(res.data).slug.None? || old(res.data).lat.None?
                  || old(res.data).lon.None? || old(res.data).timezone.None?)
      ensures outcome == Stored ==>
                && data == old(res.data).(updatedAt := Some(now)) && payouts == old(payouts)
                && Ticked(old(data), data, item) && ToldOf(old(data), data, old(outbox), outbox)
      ensures outcome != Stored ==> View() == old(View())
      ensures outcome != NotFoundOrConflict
      ensures (View(), outcome)
           == Commit(old(View()), old(res.data), old(payouts), old(res.events), UpdatedEnricher, saved, now)
    {
      ProfileOutcome(View(), item, res.data, saved, now);
      ProfileStored(View(), item, res.data, saved, now);
      outcome := Store(res, payouts, UpdatedEnricher, saved, now);
    }

    method HandleUpdateAddress(address: Address, geocoded: Option<Place>, base: string, taken: set<string>,
                               saved: bool, now: int)
      returns (slug: Option<string>, outcome: Outcome)
      modifies this
      ensures outcome == Panic <==>
              && address == old(data).address
              && (old(data).lat.None? || old(data).lon.None? || old(data).timezone.None?)
      ensures outcome == Unavailable <==>
              && outcome != Panic
              && ((address != old(data).address && geocoded.None?) || slug.None? || !saved)
      ensures outcome == Stored ==>
                && data == old(data).(slug := slug, address := address,
                                      lat := data.lat, lon := data.lon, timezone := data.timezone,
                                      checklist := data.checklist, status := data.status, updatedAt := Some(now))
                && (if address == old(data).address
                    then (data.lat, data.lon, data.timezone) == (old(data).lat, old(data).lon, old(data).timezone)
                    else data.lat == Some(geocoded.value.lat) && data.lon == Some(geocoded.value.lon)
                         && data.timezone == Some(geocoded.value.timezone))
                && payouts == old(payouts)
                && Ticked(old(data), data, Some(AddressItem)) && ToldOf(old(data), data, old(outbox), outbox)
      ensures outcome != Stored ==> View() == old(View())
      ensures outcome != NotFoundOrConflict
      ensures (View(), outcome) == On(old(View()), UpdateAddress(address, geocoded, slug), saved, now)
      ensures slug.Some? ==> slug.value !in taken
    {
      slug := None;
      var res := new Restaurant(data);
      var place: Place;
      if res.data.address == address {
        if res.data.lat.None? || res.data.lon.None? || res.data.timezone.None? {
          return slug, Panic;
        }
        place := Place(res.data.lat.value, res.data.lon.value, res.data.timezone.value);
      } else {
        if geocoded.None? {
          return slug, Unavailable;
        }
        place := geocoded.value;
      }
      slug := GenerateUniqueSlug(base, taken);
      if slug.None? {
        return slug, Unavailable;
      }
      res.CompleteChecklistItem(AddressItem);
      res.Notify(RestaurantUpdated);
      assert res.events == Touch(data, Some(AddressItem)).1;
      res.data := res.data.(slug := slug, address := address, lat := Some(place.lat), lon := Some(place.lon),
                            timezone := Some(place.timezone));
      outcome := StoreUpdate(res, Some(AddressItem), saved, now);
    }

    method HandleUpdateContact(email: Option<string>, saved: bool, now: int) returns (outcome: Outcome)
      modifies this
      ensures outcome == Unavailable <==> !saved
      ensures outcome == Panic <==>
              && saved && old(data).status in {Active, Inactive}
              && (old(data).slug.None? || old(data).lat.None? || old(data).lon.None? || old(data).timezone.None?)
      ensures outcome == Stored ==>
                && data == old(data).(email := email, checklist := data.checklist, status := data.status,
                                      updatedAt := Some(now))
                && payouts == old(payouts)
                && Ticked(old(data), data, Some(Contact)) && ToldOf(old(data), data, old(outbox), outbox)
      ensures outcome != Stored ==> View() == old(View())
      ensures outcome != NotFoundOrConflict
      ensures (View(), outcome) == On(old(View()), UpdateContact(email), saved, now)
    {
      var res := new Restaurant(data);
      res.CompleteChecklistItem(Contact);
      res.Notify(RestaurantUpdated);
      assert res.events == Touch(data, Some(Contact)).1;
      res.data := res.data.(email := email);
      outcome := StoreUpdate(res, Some(Contact), saved, now);
    }

    method HandleUpdateDelivery(delivery: nat, saved: bool, now: int) returns (outcome: Outcome)
      modifies this
      ensures outcome == Unavailable <==> !saved
      ensures outcome == Panic <==>
              && saved && old(data).status in {Active, Inactive}
              && (old(data).slug.None? || old(data).lat.None? || old(data).lon.None? || old(data).timezone.None?)
      ensures outcome == Stored ==>
                && data == old(data).(delivery := delivery, checklist := data.checklist, status := data.status,
                                      updatedAt := Some(now))
                && payouts == old(payouts)
                && Ticked(old(data), data, Some(Delivery)) && ToldOf(old(data), data, old(outbox), outbox)
      ensures outcome != Stored ==> View() == old(View())
      ensures outcome != NotFoundOrConflict
      ensures (View(), outcome) == On(old(View()), UpdateDelivery(delivery), saved, now)
    {
      var res := new Restaurant(data);
      res.CompleteChecklistItem(Delivery);
      res.Notify(RestaurantUpdated);
      assert res.events == Touch(data, Some(Delivery)).1;
      res.data := res.data.(delivery := delivery);
      outcome := StoreUpdate(res, Some(Delivery), saved, now);
    }

    method HandleUpdateOpeningHours(hours: nat, saved: bool, now: int) returns (outcome: Outcome)
      modifies this
      ensures outcome == Unavailable <==> !saved
      ensures outcome == Panic <==>
              && saved && old(data).status in {Active, Inactive}
              && (old(data).slug.None? || old(data).lat.None? || old(data).lon.None? || old(data).timezone.None?)
      ensures outcome == Stored ==>
                && data == old(data).(hours := hours, checklist := data.checklist, status := data.status,
                                      updatedAt := Some(now))
                && payouts == old(payouts)
                && Ticked(old(data), data, Some(OpeningHours)) && ToldOf(old(data), data, old(outbox), outbox)
      ensures outcome != Stored ==> View() == old(View())
      ensures outcome != NotFoundOrConflict
      ensures (View(), outcome) == On(old(View()), UpdateOpeningHours(hours), saved, now)
    {
      var res := new Restaurant(data);
      res.CompleteChecklistItem(OpeningHours);
      res.Notify(RestaurantUpdated);
      assert res.events == Touch(data, Some(OpeningHours)).1;
      res.data := res.data.(hours := hours);
      outcome := StoreUpdate(res, Some(OpeningHours), saved, now);
    }

    method HandleUpdateTags(tags: nat, saved: bool, now: int) returns (outcome: Outcome)
      modifies this
      ensures outcome == Unavailable <==> !saved
      ensures outcome == Panic <==>
              && saved && old(data).status in {Active, Inactive}
              && (old(data).slug.None? || old(data).lat.None? || old(data).lon.None? || old(data).timezone.None?)
      ensures outcome == Stored ==>
                && data == old(data).(tags := tags, checklist := data.checklist, status := data.status,
                                      updatedAt := Some(now))
                && payouts == old(payouts)
                && Ticked(old(data), data, None) && ToldOf(old(data), data, old(outbox), outbox)
      ensures outcome != Stored ==> View() == old(View())
      ensures outcome != NotFoundOrConflict
      ensures (View(), outcome) == On(old(View()), UpdateTags(tags), saved, now)
    {
      var res := new Restaurant(data);
      res.Notify(RestaurantUpdated);
      assert res.events == Touch(data, None).1;
      res.data := res.data.(tags := tags);
      outcome := StoreUpdate(res, None, saved, now);
    }

    method HandleCreatePayout(id: nat, holder: string, iban: string, saved: bool, now: int) returns (outcome: Outcome)
      modifies this
      ensures outcome == NotFoundOrConflict <==>
              id in old(payouts) || exists k :: k in old(payouts) && old(payouts)[k].status == Unverified
      ensures outcome == Unavailable <==> outcome != NotFoundOrConflict && !saved
      ensures outcome == Stored ==>
                && data == old(data).(checklist := data.checklist, status := data.status, updatedAt := Some(now))
                && Ticked(old(data), data, Some(Payout))
                && payouts == old(payouts)[id := PayoutRow(holder, iban, Unverified)]
                && outbox == old(outbox) + if data.status == old(data).status then [] else [Ready(old(data).name)]
      ensures outcome != Stored ==> View() == old(View())
      ensures outcome != Panic
      ensures (View(), outcome) == On(old(View()), CreatePayout(id, holder, iban), saved, now)
    {
      var res := new Restaurant(data);
      res.CompleteChecklistItem(Payout);
      OneRow(res.data.(updatedAt := Some(now)), NoEnricher, ReadyForReview(data.name));
      if id in payouts || HasStatus(payouts, Unverified) {
        return NotFoundOrConflict;  // a unique index is violated
      }
      outcome := Store(res, payouts[id := PayoutRow(holder, iban, Unverified)], NoEnricher, saved, now);
    }

    method HandleUpdatePayout(holder: string, iban: string) returns (outcome: Outcome)
      modifies this
      ensures outcome == Stored <==> exists k :: k in old(payouts) && old(payouts)[k].status == Unverified
      ensures outcome != Stored ==> outcome == NotFoundOrConflict && payouts == old(payouts)
      ensures data == old(data) && outbox == old(outbox) && payouts.Keys == old(payouts).Keys
      ensures forall k :: k in payouts && old(payouts)[k].status == Unverified ==>
                payouts[k] == PayoutRow(holder, iban, Unverified)
      ensures forall k :: k in payouts && old(payouts)[k].status != Unverified ==> payouts[k] == old(payouts)[k]
      ensures (View(), outcome) == On(old(View()), UpdatePayout(holder, iban), true, 0)
    {
      if !HasStatus(payouts, Unverified) {
        return NotFoundOrConflict;
      }
      payouts := map id | id in payouts ::
        if payouts[id].status.Unverified? then payouts[id].(holder := holder, iban := iban) else payouts[id];
      return Stored;
    }

    /** Approves from review and makes the unverified payout row the active one, or fails as a whole. */
    method HandleApprove(saved: bool, now: int) returns (outcome: Outcome)
      modifies this
      ensures outcome == NotFoundOrConflict <==> old(data).status != Review
      ensures outcome == Panic <==> old(data).status == Review && old(data).email.None?
      ensures outcome == Unavailable <==>
              && old(data).status == Review && old(data).email.Some?
              && (|| (forall k :: k in old(payouts) ==> old(payouts)[k].status != Unverified)
                  || (exists k :: k in old(payouts) && old(payouts)[k].status == ActivePayout)
                  || !saved)
      ensures outcome == Stored ==>
                && data == old(data).(status := Approved, updatedAt := Some(now))
                && outbox == old(outbox) + [ApprovedRow(old(data).name, old(data).email.value)]
                && payouts.Keys == old(payouts).Keys
                && (forall k :: k in payouts && old(payouts)[k].status == Unverified ==>
                      payouts[k] == PayoutRow(old(payouts)[k].holder, old(payouts)[k].iban, ActivePayout))
                && (forall k :: k in payouts && old(payouts)[k].status != Unverified ==> payouts[k] == old(payouts)[k])
      ensures outcome != Stored ==> View() == old(View())
      ensures (View(), outcome) == On(old(View()), Approve, saved, now)
    {
      var res := new Restaurant(data);
      var approval := res.Approve();
      match approval {
        case NotPendingReview => return NotFoundOrConflict;
        case NilEmail => return Panic;
        case Accepted =>
      }
      if !HasStatus(payouts, Unverified) || HasStatus(payouts, ActivePayout) {
        return Unavailable;
      }
      OneRow(res.data.(updatedAt := Some(now)), NoEnricher, RestaurantApproved(data.name, data.email.value));
      outcome := Store(res, Promoted(payouts), NoEnricher, saved, now);
    }

    method HandleLaunch(readyPizzas: nat, saved: bool, now: int) returns (outcome: Outcome)
      modifies this
      ensures outcome == NotFoundOrConflict <==> readyPizzas < 2 || old(data).status != Approved
      ensures outcome == Unavailable <==> outcome != NotFoundOrConflict && !saved
      ensures outcome == Panic <==>
              && outcome != NotFoundOrConflict && saved
              && (old(data).slug.None? || old(data).lat.None? || old(data).lon.None? || old(data).timezone.None?)
      ensures outcome == Stored ==>
                && data == old(data).(status := Active, updatedAt := Some(now)) && payouts == old(payouts)
                && outbox == old(outbox)
                          + [LaunchedRow(data.slug.value,
                                         Place(data.lat.value, data.lon.value, data.timezone.value), now)]
      ensures outcome != Stored ==> View() == old(View())
      ensures (View(), outcome) == On(old(View()), Launch(readyPizzas), saved, now)
    {
      var res := new Restaurant(data);
      if readyPizzas < MIN_PIZZAS_TO_LAUNCH {
        return NotFoundOrConflict;
      }
      var ok := res.Launch();
      if !ok {
        return NotFoundOrConflict;
      }
      OneRow(res.data.(updatedAt := Some(now)), LaunchedEnricher, RestaurantLaunched);
      outcome := Store(res, payouts, LaunchedEnricher, saved, now);
    }

    /** A pizza or topping-price command: the menu tables are not part of this module, only the announcement is. */
    method HandleMenuChange(pizza: bool, saved: bool) returns (outcome: Outcome)
      modifies this
      ensures outcome == if saved then Stored else Unavailable
      ensures data == old(data) && payouts == old(payouts)
      ensures outbox == old(outbox) + if saved && data.status in {Active, Inactive}
                                      then [if pizza then PizzaRow else ToppingsRow] else []
      ensures (View(), outcome) == On(old(View()), if pizza then ChangePizza else ChangeToppingPrices, saved, 0)
    {
      if !saved {
        return Unavailable;
      }
      var res := new Restaurant(data);
      res.Notify(if pizza then PizzaUpdated else ToppingPricesUpdated);
      OneRow(data, if pizza then PizzaEnricher else ToppingsEnricher, if pizza then PizzaUpdated else ToppingPricesUpdated);
      var rows := DispatchEvents(res, if pizza then PizzaEnricher else ToppingsEnricher);
      if rows.None? {
        return Panic;
      }
      outbox := outbox + rows.value;
      return Stored;
    }
  }
}
