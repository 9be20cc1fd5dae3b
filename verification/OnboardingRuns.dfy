/**
Every state that commands can reach from a new draft restaurant, by requests that passed validation
or by any requests at all.
*/
module OnboardingRuns {
  import opened Wrappers
  import opened Onboarding

  /** What request validation guarantees: an address has a house number, a contact an e-mail. */
  predicate Validated(r: Request) {
    && (r.UpdateAddress? ==> r.address.house != "")
    && (r.UpdateContact? ==> r.email.Some?)
  }

  ghost predicate Initial(s: State) {
    && s.data.status.Draft? && s.data.checklist == NewChecklist()[Basic := true]
    && s.data.address == NO_ADDRESS && s.payouts == map[] && s.outbox == []
  }

  ghost predicate Next(s: State, s': State, validated: bool) {
    exists r, saved, now :: (validated ==> Validated(r)) && s' == On(s, r, saved, now).0
  }

  /** A run of requests; with `validated`, of requests that passed validation. */
  ghost predicate Run(trace: seq<State>, validated: bool) {
    && |trace| > 0 && Initial(trace[0])
    && forall i :: 0 <= i < |trace| - 1 ==> Next(trace[i], trace[i + 1], validated)
  }

  // ---- what holds of every state ----

  /** The place of a published event in the life of a restaurant. */
  function Stage(p: Payload): nat {
    match p
    case Ready(_) => 0
    case ApprovedRow(_, _) => 1
    case LaunchedRow(_, _, _) => 2
    case _ => 3
  }

  /** How many of the first three stages a status has behind it. */
  function Reached(status: Status): nat {
    match status
    case Draft => 0
    case Review => 1
    case Approved => 2
    case _ => 3
  }

  /** The outbox holds the announcements of the stages reached, once each and in order, then only updates. */
  ghost predicate Announced(outbox: seq<Payload>, reached: nat) {
    && reached <= 3 && |outbox| >= reached
    && (forall i :: 0 <= i < reached ==> Stage(outbox[i]) == i)
    && (forall i :: reached <= i < |outbox| ==> Stage(outbox[i]) == 3)
    && (reached < 3 ==> |outbox| == reached)
  }

  ghost predicate PayoutsOk(s: State) {
    && (forall i, j :: (&& i in s.payouts && j in s.payouts
                        && s.payouts[i].status.Unverified? && s.payouts[j].status.Unverified?) ==> i == j)
    && (Done(s.data.checklist, Payout) && Reached(s.data.status) < 2 ==> HasStatus(s.payouts, Unverified))
    && (Reached(s.data.status) < 2 ==> !HasStatus(s.payouts, ActivePayout))
  }

  predicate Located(d: Data) {
    d.lat.Some? && d.lon.Some? && d.timezone.Some?
  }

  predicate DataOk(d: Data) {
    && d.status in {Draft, Review, Approved, Active}
    && (d.status != Draft ==> Completed(d.checklist))
    && (d.address != NO_ADDRESS ==> Located(d))
    && (Done(d.checklist, AddressItem) ==> d.slug.Some? && Located(d))
  }

  ghost predicate Inv(s: State) {
    && DataOk(s.data) && PayoutsOk(s) && Announced(s.outbox, Reached(s.data.status))
  }

  /** With validated requests only: a done contact item means that the e-mail is there. */
  predicate ContactOk(d: Data) {
    Done(d.checklist, Contact) ==> d.email.Some?
  }

  // ---- commands keep it, and exactly these dereference nil ----

  /** The empty address on a restaurant without one and without coordinates, or approving without an e-mail. */
  predicate Panics(d: Data, r: Request) {
    || (r.UpdateAddress? && r.address == NO_ADDRESS && d.address == NO_ADDRESS && !Located(d))
    || (r.Approve? && d.status.Review? && d.email.None?)
  }

  lemma CompleteKeeps(d: Data, item: Item)
    ensures forall other: Item :: Done(CompleteItem(d, item).0.checklist, other) <==> other == item || Done(d.checklist, other)
    ensures Completed(d.checklist) ==> Completed(CompleteItem(d, item).0.checklist)
  {
    forall other: Item | Completed(d.checklist) ensures Done(CompleteItem(d, item).0.checklist, other) {
      assert Done(d.checklist, other);
    }
  }

  /** A profile command: it marks an item done and sets the fields that item stands for. */
  lemma ProfileInv(s: State, item: Option<Item>, d: Data, saved: bool, now: int)
    requires Inv(s)
    requires var t := Touch(s.data, item).0; d.status == t.status && d.checklist == t.checklist && DataOk(d)
    requires item.Some? ==> item.value != Payout
    requires Launched(d.status) ==> d.slug.Some?
    ensures var r := Commit(s, d, s.payouts, Touch(s.data, item).1, UpdatedEnricher, saved, now);
            Inv(r.0) && r.1 != Panic
  {
    assert Launched(d.status) ==> Done(d.checklist, AddressItem);
    TouchRows(s.data, item, d.(updatedAt := Some(now)));
    AnnouncedTouch(s.outbox, s.data, item);
    PayoutsStay(s, item, Commit(s, d, s.payouts, Touch(s.data, item).1, UpdatedEnricher, saved, now).0);
  }

  lemma PayoutsStay(s: State, item: Option<Item>, s': State)
    requires PayoutsOk(s) && s'.payouts == s.payouts && (item.Some? ==> item.value != Payout)
    requires s'.data.status == s.data.status || s'.data.status == Touch(s.data, item).0.status
    requires s'.data.checklist == s.data.checklist || s'.data.checklist == Touch(s.data, item).0.checklist
    ensures PayoutsOk(s')
  {
    if item.Some? {
      CompleteKeeps(s.data, item.value);
    }
  }

  /** A launched restaurant has what the payload of an update needs. */
  predicate Describing(d: Data) {
    Launched(d.status) ==> d.slug.Some? && d.lat.Some? && d.lon.Some? && d.timezone.Some? && d.updatedAt.Some?
  }

  /** The one row, if any, that a profile command writes. */
  lemma TouchRows(before: Data, item: Option<Item>, d: Data)
    requires d.status == Touch(before, item).0.status && Describing(d)
    ensures RowsFor(d, UpdatedEnricher, Touch(before, item).1).Some?
    ensures var rows := RowsFor(d, UpdatedEnricher, Touch(before, item).1).value;
            if Launched(d.status) then |rows| == 1 && Stage(rows[0]) == 3
            else if before.status.Draft? && d.status.Review? then |rows| == 1 && Stage(rows[0]) == 0
            else rows == []
  {
    var t := Touch(before, item);
    assert t.1 == if Launched(d.status) then [RestaurantUpdated]
                  else if before.status.Draft? && d.status.Review? then [ReadyForReview(before.name)] else [];
    OneRow(d, UpdatedEnricher, ReadyForReview(before.name));
    OneRow(d, UpdatedEnricher, RestaurantUpdated);
  }

  /** One more row of the stage just reached, or of an update after the launch, keeps the order. */
  lemma AnnouncedTouch(outbox: seq<Payload>, before: Data, item: Option<Item>)
    requires Announced(outbox, Reached(before.status))
    ensures var status := Touch(before, item).0.status;
            && (forall rows :: (if Launched(status) then |rows| == 1 && Stage(rows[0]) == 3
                                else if before.status.Draft? && status.Review? then |rows| == 1 && Stage(rows[0]) == 0
                                else rows == [])
                  ==> Announced(outbox + rows, Reached(status)))
  {
  }

  lemma AddressInv(s: State, address: Address, geocoded: Option<Place>, slug: Option<string>, saved: bool, now: int)
    requires Inv(s)
    ensures var r := OnAddress(s, address, geocoded, slug, saved, now);
            Inv(r.0) && (r.1 == Panic <==> Panics(s.data, UpdateAddress(address, geocoded, slug)))
  {
    var d := s.data;
    CompleteKeeps(d, AddressItem);
    if !(d.address == address && !Located(d)) {
      if (d.address == address || geocoded.Some?) && slug.Some? {
        var place := if d.address == address then Place(d.lat.value, d.lon.value, d.timezone.value) else geocoded.value;
        var changed := Touch(d, Some(AddressItem)).0.(slug := slug, address := address, lat := Some(place.lat),
                                                      lon := Some(place.lon), timezone := Some(place.timezone));
        ProfileInv(s, Some(AddressItem), changed, saved, now);
      }
    }
  }

  lemma SectionInv(s: State, r: Request, saved: bool, now: int)
    requires Inv(s) && (r.UpdateContact? || r.UpdateDelivery? || r.UpdateOpeningHours? || r.UpdateTags?)
    ensures Inv(On(s, r, saved, now).0) && On(s, r, saved, now).1 != Panic
  {
    var d := s.data;
    assert Launched(d.status) ==> Done(d.checklist, AddressItem);
    match r
    case UpdateContact(email) =>
      CompleteKeeps(d, Contact);
      ProfileInv(s, Some(Contact), Touch(d, Some(Contact)).0.(email := email), saved, now);
    case UpdateDelivery(delivery) =>
      CompleteKeeps(d, Delivery);
      ProfileInv(s, Some(Delivery), Touch(d, Some(Delivery)).0.(delivery := delivery), saved, now);
    case UpdateOpeningHours(hours) =>
      CompleteKeeps(d, OpeningHours);
      ProfileInv(s, Some(OpeningHours), Touch(d, Some(OpeningHours)).0.(hours := hours), saved, now);
    case UpdateTags(tags) =>
      ProfileInv(s, None, Touch(d, None).0.(tags := tags), saved, now);
  }

  lemma NewPayoutOk(s: State, s': State, id: nat, holder: string, iban: string)
    requires PayoutsOk(s) && !HasStatus(s.payouts, Unverified) && id !in s.payouts
    requires s'.payouts == s.payouts[id := PayoutRow(holder, iban, Unverified)]
    requires Reached(s.data.status) < 2 || Reached(s'.data.status) >= 2
    ensures PayoutsOk(s')
  {
    assert s'.payouts[id].status == Unverified;
    forall k | k in s.payouts ensures s'.payouts[k] == s.payouts[k] && s.payouts[k].status != Unverified {
    }
    if HasStatus(s'.payouts, ActivePayout) {
      var k :| k in s'.payouts && s'.payouts[k].status == ActivePayout;
      assert s.payouts[k].status == ActivePayout;
    }
  }

  lemma CreatePayoutInv(s: State, id: nat, holder: string, iban: string, saved: bool, now: int)
    requires Inv(s)
    ensures var r := OnCreatePayout(s, id, holder, iban, saved, now); Inv(r.0) && r.1 != Panic
  {
    var c := CompleteItem(s.data, Payout);
    var r := OnCreatePayout(s, id, holder, iban, saved, now);
    CompleteKeeps(s.data, Payout);
    OneRow(c.0.(updatedAt := Some(now)), NoEnricher, ReadyForReview(s.data.name));
    if r.1.Stored? {
      NewPayoutOk(s, r.0, id, holder, iban);
    }
  }

  lemma UpdatePayoutInv(s: State, holder: string, iban: string)
    requires Inv(s)
    ensures var r := OnUpdatePayout(s, holder, iban); Inv(r.0) && r.1 != Panic
  {
    if HasStatus(s.payouts, Unverified) {
      var s' := OnUpdatePayout(s, holder, iban).0;
      var k :| k in s.payouts && s.payouts[k].status == Unverified;
      assert s'.payouts[k].status == Unverified;
      if HasStatus(s'.payouts, ActivePayout) {
        var j :| j in s'.payouts && s'.payouts[j].status == ActivePayout;
        assert s.payouts[j].status == ActivePayout;
      }
    }
  }

  /** Approving from review always finds the unverified payout, and no active one in its way. */
  lemma ApproveInv(s: State, saved: bool, now: int)
    requires Inv(s)
    ensures var r := OnApprove(s, saved, now); Inv(r.0) && (r.1 == Panic <==> Panics(s.data, Approve))
    ensures s.data.status.Review? ==>
              HasStatus(s.payouts, Unverified) && !HasStatus(s.payouts, ActivePayout)
              && (saved && s.data.email.Some? ==> OnApprove(s, saved, now).1 == Stored)
  {
    if s.data.status.Review? {
      assert Done(s.data.checklist, Payout);
      if s.data.email.Some? {
        OneRow(s.data.(status := Approved, updatedAt := Some(now)), NoEnricher,
               RestaurantApproved(s.data.name, s.data.email.value));
      }
    }
  }

  lemma LaunchInv(s: State, readyPizzas: nat, saved: bool, now: int)
    requires Inv(s)
    ensures var r := OnLaunch(s, readyPizzas, saved, now); Inv(r.0) && r.1 != Panic
  {
    if s.data.status.Approved? {
      assert Done(s.data.checklist, AddressItem);
      OneRow(s.data.(status := Active, updatedAt := Some(now)), LaunchedEnricher, RestaurantLaunched);
    }
  }

  lemma AnnouncedMore(outbox: seq<Payload>, p: Payload)
    requires Announced(outbox, 3) && Stage(p) == 3
    ensures Announced(outbox + [p], 3)
  {
  }

  lemma MenuInv(s: State, event: DomainEvent, enricher: Enricher, saved: bool)
    requires Inv(s)
    requires (event.PizzaUpdated? && enricher.PizzaEnricher?) || (event.ToppingPricesUpdated? && enricher.ToppingsEnricher?)
    ensures var r := OnMenuChange(s, event, enricher, saved); Inv(r.0) && r.1 != Panic
  {
    if Launched(s.data.status) {
      var p := if event.PizzaUpdated? then PizzaRow else ToppingsRow;
      OneRow(s.data, enricher, event);
      AnnouncedMore(s.outbox, p);
    } else {
      assert s.outbox + [] == s.outbox;
    }
  }

  lemma StepInv(s: State, r: Request, saved: bool, now: int)
    requires Inv(s)
    ensures Inv(On(s, r, saved, now).0) && (On(s, r, saved, now).1 == Panic <==> Panics(s.data, r))
  {
    match r
    case UpdateAddress(address, geocoded, slug) => AddressInv(s, address, geocoded, slug, saved, now);
    case CreatePayout(id, holder, iban) => CreatePayoutInv(s, id, holder, iban, saved, now);
    case UpdatePayout(holder, iban) => UpdatePayoutInv(s, holder, iban);
    case Approve => ApproveInv(s, saved, now);
    case Launch(readyPizzas) => LaunchInv(s, readyPizzas, saved, now);
    case ChangePizza => MenuInv(s, PizzaUpdated, PizzaEnricher, saved);
    case ChangeToppingPrices => MenuInv(s, ToppingPricesUpdated, ToppingsEnricher, saved);
    case _ => SectionInv(s, r, saved, now);
  }

  /** Only the contact command touches the e-mail or marks the contact item. */
  lemma ContactStep(s: State, r: Request, saved: bool, now: int)
    requires ContactOk(s.data) && Validated(r)
    ensures ContactOk(On(s, r, saved, now).0.data)
  {
    if r.UpdateAddress? {
      CompleteKeeps(s.data, AddressItem);
    } else if r.UpdateDelivery? || r.UpdateOpeningHours? {
      var item := if r.UpdateDelivery? then Delivery else OpeningHours;
      CompleteKeeps(s.data, item);
    } else if r.CreatePayout? {
      CompleteKeeps(s.data, Payout);
    }
  }

  lemma {:induction false} RunInv(trace: seq<State>, validated: bool, i: nat)
    requires Run(trace, validated) && i < |trace|
    ensures Inv(trace[i]) && (validated ==> ContactOk(trace[i].data))
  {
    if i > 0 {
      RunInv(trace, validated, i - 1);
      assert Next(trace[i - 1], trace[i - 1 + 1], validated);
      NextInv(trace[i - 1], trace[i], validated);
    } else {
      assert !Done(trace[0].data.checklist, Payout) && !Done(trace[0].data.checklist, Contact);
    }
  }

  lemma NextInv(s: State, s': State, validated: bool)
    requires Inv(s) && (validated ==> ContactOk(s.data)) && Next(s, s', validated)
    ensures Inv(s') && (validated ==> ContactOk(s'.data))
  {
    var r, saved, now :| (validated ==> Validated(r)) && s' == On(s, r, saved, now).0;
    StepInv(s, r, saved, now);
    if validated {
      ContactStep(s, r, saved, now);
    }
  }

  // ---- the theorems ----

  /**
  In every reachable state a restaurant past draft has a complete checklist, and a done address
  item means that slug, coordinates and timezone are there; with validated requests a done contact
  item means that the e-mail is.
  */
  lemma ChecklistIsHonest(trace: seq<State>, validated: bool, i: nat)
    requires Run(trace, validated) && i < |trace|
    ensures var d := trace[i].data;
            && (d.status != Draft ==> Completed(d.checklist))
            && (Done(d.checklist, AddressItem) ==> d.slug.Some? && d.lat.Some? && d.lon.Some? && d.timezone.Some?)
            && (validated && Done(d.checklist, Contact) ==> d.email.Some?)
  {
    RunInv(trace, validated, i);
  }

  /** With validated requests no command on a reachable state dereferences a missing field. */
  lemma NoCommandPanics(trace: seq<State>, i: nat, r: Request, saved: bool, now: int)
    requires Run(trace, true) && i < |trace| && Validated(r)
    ensures On(trace[i], r, saved, now).1 != Panic
  {
    RunInv(trace, true, i);
    StepInv(trace[i], r, saved, now);
    assert trace[i].data.status.Review? ==> Done(trace[i].data.checklist, Contact);
  }

  /**
  Exactly when a request panics if neither it nor those before it were validated: it sets the empty
  address on a restaurant whose stored address is empty too and whose coordinates or timezone are
  missing, or it approves a restaurant in review without an e-mail.
  */
  lemma PanicsExactly(trace: seq<State>, validated: bool, i: nat, r: Request, saved: bool, now: int)
    requires Run(trace, validated) && i < |trace|
    ensures On(trace[i], r, saved, now).1 == Panic <==> Panics(trace[i].data, r)
  {
    RunInv(trace, validated, i);
    StepInv(trace[i], r, saved, now);
  }

  /** A new restaurant meets the first condition. */
  lemma EmptyAddressPanics(s: State, geocoded: Option<Place>, slug: Option<string>, saved: bool, now: int)
    requires Initial(s) && s.data.lat.None?
    ensures On(s, UpdateAddress(NO_ADDRESS, geocoded, slug), saved, now).1 == Panic
  {
  }

  /** A draft that lacks only the contact item, given a contact without an e-mail, meets the second one. */
  lemma MissingEmailPanics(s: State, saved: bool, now: int, later: int)
    requires Inv(s) && s.data.status.Draft? && Completed(s.data.checklist[Contact := true])
    ensures var s' := On(s, UpdateContact(None), true, now).0;
            s'.data.status.Review? && On(s', Approve, saved, later).1 == Panic
  {
    TouchRows(s.data, Some(Contact), Touch(s.data, Some(Contact)).0.(email := None, updatedAt := Some(now)));
  }

  /** Approving a restaurant in review always finds an unverified payout and succeeds, the save permitting. */
  lemma ApprovalFindsPayout(trace: seq<State>, i: nat, now: int)
    requires Run(trace, true) && i < |trace| && trace[i].data.status.Review?
    ensures HasStatus(trace[i].payouts, Unverified)
    ensures var r := On(trace[i], Approve, true, now);
            r.1 == Stored && r.0.data.status.Approved? && HasStatus(r.0.payouts, ActivePayout)
  {
    RunInv(trace, true, i);
    assert Done(trace[i].data.checklist, Contact);
    ApproveInv(trace[i], true, now);
    var k :| k in trace[i].payouts && trace[i].payouts[k].status == Unverified;
    assert Promoted(trace[i].payouts)[k].status == ActivePayout;
  }

  /**
  ready_for_review, approved and launched are each announced at most once, in that order and
  before any update: exactly those of the stages the restaurant has reached.
  */
  lemma AnnouncedOnceInOrder(trace: seq<State>, validated: bool, i: nat)
    requires Run(trace, validated) && i < |trace|
    ensures Announced(trace[i].outbox, Reached(trace[i].data.status))
    ensures forall j, k :: 0 <= j < k < |trace[i].outbox| ==>
              Stage(trace[i].outbox[j]) <= Stage(trace[i].outbox[k])
              && (Stage(trace[i].outbox[j]) == Stage(trace[i].outbox[k]) ==> Stage(trace[i].outbox[j]) == 3)
  {
    RunInv(trace, validated, i);
  }
}
