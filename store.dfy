/** The in-memory side of src/hooks/useSubscriptions.ts: the subscription
    list and the two vocabularies, and the operations that replace them.
    Every Supabase call is a `reply` parameter: the row id the insert
    returned, or the error it threw. The signed-in user is the field `user`. */
module Store {
  import opened Wrappers
  import opened Dates
  import opened Types
  import opened DateUtils
  import SampleData
  import Seqs

  /** The expiration a form resolves to, before any storage: a custom date
      that is set counts only under the 'custom' key. */
  function FormExpiration(form: SubscriptionFormData): (e: int)
    ensures form.duration == "custom" && form.customDate.Defined? ==> e == form.customDate.value
    ensures form.duration != "custom" || !form.customDate.Defined? ==>
      e == CalculateExpirationDate(form.startDate, form.duration, form.customDuration.Value(), None)
  {
    CalculateExpirationDate(form.startDate, form.duration, form.customDuration.Value(), form.customDate.Value())
  }

  /** The record an add puts in the list: the row as the database returns
      it. Dates are stored as calendar days and come back as that day's
      midnight; a missing cost is stored as 0 and missing notes as ''; a
      custom duration of 0 is stored as null. The status was computed from
      the untruncated expiration. */
  function InsertedRecord(id: string, form: SubscriptionFormData, now: int): (r: Subscription)
    ensures r.id == id && r.clientName == form.clientName && r.planType == form.planType
    ensures r.duration == form.duration
    ensures r.startDate == StartOfDay(form.startDate)
    ensures r.expirationDate == StartOfDay(FormExpiration(form))
    ensures r.status == GetSubscriptionStatus(FormExpiration(form), now)
    ensures r.customDate.Some? <==> form.customDate.Defined?
    ensures form.customDate.Defined? ==> r.customDate.value == StartOfDay(form.customDate.value)
    ensures r.customDuration.Some? <==> form.customDuration.Defined? && form.customDuration.value != 0
    ensures r.customDuration.Some? ==> r.customDuration.value == form.customDuration.value
    ensures r.cost == Some(form.cost.Value().GetOr(0.0))
    ensures r.notes == Some(form.notes.Value().GetOr(""))
  {
    var expirationDate := FormExpiration(form);
    var customDuration :=
      if form.customDuration.Defined? && form.customDuration.value != 0 then Some(form.customDuration.value) else None;
    var customDate :=
      if form.customDate.Defined? then Some(StartOfDay(form.customDate.value)) else None;
    Subscription(id, form.clientName, form.planType, form.duration, customDuration, customDate,
                 StartOfDay(form.startDate), StartOfDay(expirationDate),
                 Some(form.notes.Value().GetOr("")), Some(form.cost.Value().GetOr(0.0)),
                 GetSubscriptionStatus(expirationDate, now))
  }

  /** `{...sub, ...formData, expirationDate, status}`: the form's fields over
      the record's, with expiration and status recomputed (not truncated). */
  function UpdatedRecord(sub: Subscription, form: SubscriptionFormData, now: int): (r: Subscription)
    ensures r.id == sub.id
    ensures r.clientName == form.clientName && r.planType == form.planType
    ensures r.duration == form.duration && r.startDate == form.startDate
    ensures r.expirationDate == FormExpiration(form)
    ensures r.status == GetSubscriptionStatus(r.expirationDate, now)
    ensures form.cost.Missing? ==> r.cost == sub.cost
    ensures form.customDate.Missing? ==> r.customDate == sub.customDate
    ensures form.notes.Missing? ==> r.notes == sub.notes
    ensures form.customDuration.Missing? ==> r.customDuration == sub.customDuration
    ensures !form.cost.Missing? ==> r.cost == form.cost.Value()
    ensures !form.customDate.Missing? ==> r.customDate == form.customDate.Value()
    ensures !form.notes.Missing? ==> r.notes == form.notes.Value()
    ensures !form.customDuration.Missing? ==> r.customDuration == form.customDuration.Value()
  {
    var expirationDate := FormExpiration(form);
    sub.(clientName := form.clientName, planType := form.planType, duration := form.duration,
         startDate := form.startDate,
         customDuration := form.customDuration.Over(sub.customDuration),
         customDate := form.customDate.Over(sub.customDate),
         notes := form.notes.Over(sub.notes),
         cost := form.cost.Over(sub.cost),
         expirationDate := expirationDate,
         status := GetSubscriptionStatus(expirationDate, now))
  }

  /** `prev.map(sub => sub.id === id ? updated : sub)`. */
  function ReplaceById(s: seq<Subscription>, id: string, form: SubscriptionFormData, now: int): (r: seq<Subscription>)
    ensures |r| == |s|
    ensures forall i :: 0 <= i < |s| ==> r[i] == if s[i].id == id then UpdatedRecord(s[i], form, now) else s[i]
  {
    seq(|s|, i requires 0 <= i < |s| => if s[i].id == id then UpdatedRecord(s[i], form, now) else s[i])
  }

  /** `prev.filter(sub => sub.id !== id)`. */
  function RemoveById(s: seq<Subscription>, id: string): (r: seq<Subscription>)
    ensures forall x :: x in r <==> x in s && x.id != id
    ensures forall x :: multiset(r)[x] == if x.id != id then multiset(s)[x] else 0
  {
    Seqs.Filter((x: Subscription) => x.id != id, s)
  }

  /** `prev.filter(t => t !== type)`: every entry equal to `t` removed. */
  function RemoveAllOf(types: seq<string>, t: string): (r: seq<string>)
    ensures forall x :: x in r <==> x in types && x != t
    ensures forall x :: multiset(r)[x] == if x != t then multiset(types)[x] else 0
  {
    Seqs.Filter((x: string) => x != t, types)
  }

  /** `prev.map((d, i) => i === index ? item : d)`. */
  function ReplaceAt<T>(s: seq<T>, index: int, item: T): (r: seq<T>)
    ensures |r| == |s|
  {
    seq(|s|, i requires 0 <= i < |s| => if i == index then item else s[i])
  }

  /** `prev.filter((_, i) => i !== index)`. */
  function RemoveAt<T>(s: seq<T>, index: int): (r: seq<T>)
    ensures |r| == if 0 <= index < |s| then |s| - 1 else |s|
  {
    if 0 <= index < |s| then s[..index] + s[index + 1..] else s
  }

  /** The ids of a list, in order. */
  function Ids(s: seq<Subscription>): (ids: seq<string>)
    ensures |ids| == |s|
    ensures forall i :: 0 <= i < |s| ==> ids[i] == s[i].id
  {
    seq(|s|, i requires 0 <= i < |s| => s[i].id)
  }

  class SubscriptionStore {
    var user: Option<string>
    var loading: bool
    var subscriptions: seq<Subscription>
    var customTypes: seq<string>
    var customDurations: seq<DurationOption>

    /** The hook's initial state: no records yet, loading, and the
        vocabularies of the sample data. */
    constructor (user: Option<string>)
      ensures this.user == user && loading && subscriptions == []
      ensures customTypes == SampleData.SubscriptionTypes
      ensures customDurations == SampleData.DurationOptions
    {
      this.user := user;
      loading := true;
      subscriptions := [];
      customTypes := SampleData.SubscriptionTypes;
      customDurations := SampleData.DurationOptions;
    }

    /** `fetchSubscriptions`, given the rows the query returned already
        decoded: without a user the list empties; a failed query keeps it. */
    method FetchSubscriptions(reply: Result<seq<Subscription>, string>)
      modifies this`subscriptions, this`loading
      ensures !loading
      ensures user.None? ==> subscriptions == []
      ensures user.Some? && reply.Success? ==> subscriptions == reply.value
      ensures user.Some? && reply.Failure? ==> subscriptions == old(subscriptions)
    {
      if user.None? {
        subscriptions := [];
        loading := false;
        return;
      }
      loading := true;
      if reply.Success? {
        subscriptions := reply.value;
      }
      loading := false;
    }

    /** `addSubscription`: on a successful insert the returned record is
        prepended; without a user or on an error nothing changes and the
        result is null. */
    method AddSubscription(form: SubscriptionFormData, now: int, reply: Result<string, string>)
      returns (added: Option<Subscription>)
      modifies this`subscriptions
      ensures user.None? || reply.Failure? ==> added.None? && subscriptions == old(subscriptions)
      ensures user.Some? && reply.Success? ==>
        added == Some(InsertedRecord(reply.value, form, now)) && subscriptions == [added.value] + old(subscriptions)
    {
      if user.None? {
        return None;
      }
      if reply.Failure? {
        return None;
      }
      var record := InsertedRecord(reply.value, form, now);
      subscriptions := [record] + subscriptions;
      added := Some(record);
    }

    /** `updateSubscription`: on a successful write every record with the id
        is replaced in place; without a user or on an error nothing changes. */
    method UpdateSubscription(id: string, form: SubscriptionFormData, now: int, reply: Result<(), string>)
      modifies this`subscriptions
      ensures user.None? || reply.Failure? ==> subscriptions == old(subscriptions)
      ensures user.Some? && reply.Success? ==> subscriptions == ReplaceById(old(subscriptions), id, form, now)
    {
      if user.None? || reply.Failure? {
        return;
      }
      subscriptions := ReplaceById(subscriptions, id, form, now);
    }

    /** `deleteSubscription`: on a successful delete the records with the id
        are filtered out; without a user or on an error nothing changes. */
    method DeleteSubscription(id: string, reply: Result<(), string>)
      modifies this`subscriptions
      ensures user.None? || reply.Failure? ==> subscriptions == old(subscriptions)
      ensures user.Some? && reply.Success? ==> subscriptions == RemoveById(old(subscriptions), id)
    {
      if user.None? || reply.Failure? {
        return;
      }
      subscriptions := RemoveById(subscriptions, id);
    }

    /** `addCustomType`: appends, without a duplicate check. */
    method AddCustomType(t: string)
      modifies this`customTypes
      ensures customTypes == old(customTypes) + [t]
    {
      customTypes := customTypes + [t];
    }

    /** `removeCustomType`: removes every entry equal to `t`. */
    method RemoveCustomType(t: string)
      modifies this`customTypes
      ensures customTypes == RemoveAllOf(old(customTypes), t)
    {
      customTypes := RemoveAllOf(customTypes, t);
    }

    /** `addCustomDuration`: appends, without a duplicate check. */
    method AddCustomDuration(d: DurationOption)
      modifies this`customDurations
      ensures customDurations == old(customDurations) + [d]
    {
      customDurations := customDurations + [d];
    }

    /** `updateCustomDuration`: replaces the entry at `index`, if any. */
    method UpdateCustomDuration(index: int, d: DurationOption)
      modifies this`customDurations
      ensures customDurations == ReplaceAt(old(customDurations), index, d)
    {
      customDurations := ReplaceAt(customDurations, index, d);
    }

    /** `removeCustomDuration`: removes the entry at `index`, if any. */
    method RemoveCustomDuration(index: int)
      modifies this`customDurations
      ensures customDurations == RemoveAt(old(customDurations), index)
    {
      customDurations := RemoveAt(customDurations, index);
    }
  }

  /** An update keeps the list's length, its ids and their order, leaves
      every record with another id as it was, and gives each updated record
      the status its new expiration has at `now`. */
  lemma UpdateKeepsIdsAndOthers(s: seq<Subscription>, id: string, form: SubscriptionFormData, now: int)
    ensures Ids(ReplaceById(s, id, form, now)) == Ids(s)
    ensures forall i :: 0 <= i < |s| && s[i].id != id ==> ReplaceById(s, id, form, now)[i] == s[i]
    ensures forall i :: 0 <= i < |s| && s[i].id == id ==>
      ReplaceById(s, id, form, now)[i].expirationDate == FormExpiration(form) &&
      ReplaceById(s, id, form, now)[i].status == GetSubscriptionStatus(FormExpiration(form), now)
  {
  }

  /** Updating an id that no record has changes nothing. */
  lemma UpdateMissingIdIsNoOp(s: seq<Subscription>, id: string, form: SubscriptionFormData, now: int)
    requires id !in Ids(s)
    ensures ReplaceById(s, id, form, now) == s
  {
    var r := ReplaceById(s, id, form, now);
    forall i | 0 <= i < |s| ensures r[i] == s[i] {
      assert Ids(s)[i] == s[i].id;
    }
  }

  /** Submitting the same form twice is the same as submitting it once. */
  lemma UpdateIdempotent(s: seq<Subscription>, id: string, form: SubscriptionFormData, now: int)
    ensures ReplaceById(ReplaceById(s, id, form, now), id, form, now) == ReplaceById(s, id, form, now)
  {
    var once := ReplaceById(s, id, form, now);
    var twice := ReplaceById(once, id, form, now);
    forall i | 0 <= i < |s| ensures twice[i] == once[i] {
      if s[i].id == id {
        assert once[i].id == id;
      }
    }
  }

  /** Delete removes exactly the records with the id, keeps the rest in
      their original relative order, and leaves none with that id. */
  lemma DeleteRemovesExactly(s: seq<Subscription>, id: string)
    ensures Seqs.IsSubsequence(RemoveById(s, id), s)
    ensures id !in Ids(RemoveById(s, id))
    ensures forall x :: x in s && x.id != id ==> x in RemoveById(s, id)
    ensures id !in Ids(s) ==> RemoveById(s, id) == s
  {
    var r := RemoveById(s, id);
    Seqs.FilterIsSubsequence((x: Subscription) => x.id != id, s);
    forall i | 0 <= i < |r| ensures Ids(r)[i] != id {
      assert r[i] in r;
    }
    if id !in Ids(s) {
      forall x | x in s ensures x.id != id {
        var i :| 0 <= i < |s| && s[i] == x;
        assert Ids(s)[i] == x.id;
      }
      Seqs.FilterKeepsAll((x: Subscription) => x.id != id, s);
    }
  }

  /** Adding a record under a fresh id and then deleting that id restores
      the list. */
  lemma AddThenDeleteRestores(s: seq<Subscription>, id: string, form: SubscriptionFormData, now: int)
    requires id !in Ids(s)
    ensures RemoveById([InsertedRecord(id, form, now)] + s, id) == s
  {
    var keep := (x: Subscription) => x.id != id;
    DeleteRemovesExactly(s, id);
    calc {
      RemoveById([InsertedRecord(id, form, now)] + s, id);
      Seqs.Filter(keep, [InsertedRecord(id, form, now)] + s);
      { Seqs.FilterAppend(keep, [InsertedRecord(id, form, now)], s); }
      Seqs.Filter(keep, [InsertedRecord(id, form, now)]) + Seqs.Filter(keep, s);
    }
    assert Seqs.Filter(keep, [InsertedRecord(id, form, now)]) == [];
  }

  /** The record an add stores can carry a status its stored expiration no
      longer has: the status was taken on the exact expiration, the list
      keeps that day's midnight. A custom date one hour ahead at noon is
      expiring soon, while its stored midnight is already past. */
  lemma InsertedStatusCanDisagree()
    ensures var now := 10 * DAY + DAY / 2;
            var form := SubscriptionFormData("Client", "Basic", "custom", now, Missing, Defined(now + DAY / 24), Missing, Missing);
            var r := InsertedRecord("id", form, now);
            r.status == ExpiringSoon && GetSubscriptionStatus(r.expirationDate, now) == Expired
  {
    var now := 10 * DAY + DAY / 2;
    var form := SubscriptionFormData("Client", "Basic", "custom", now, Missing, Defined(now + DAY / 24), Missing, Missing);
    assert FormExpiration(form) == now + DAY / 24;
    assert StartOfDay(now + DAY / 24) == 10 * DAY;
  }

  /** Appending a type that is not yet present keeps the vocabulary free of
      duplicates, and so does removing one. */
  lemma TypeVocabularyStaysDistinct(types: seq<string>, t: string)
    requires Seqs.Distinct(types)
    ensures t !in types ==> Seqs.Distinct(types + [t])
    ensures Seqs.Distinct(RemoveAllOf(types, t))
    ensures t !in RemoveAllOf(types, t)
  {
    Seqs.FilterKeepsDistinct((x: string) => x != t, types);
    if t !in types {
      var s := types + [t];
      forall i, j | 0 <= i < j < |s| ensures s[i] != s[j] {
        if j == |types| {
          assert s[i] in types;
        }
      }
    }
  }

  /** Adding a type and removing it again restores a vocabulary that did
      not contain it. */
  lemma AddThenRemoveType(types: seq<string>, t: string)
    requires t !in types
    ensures RemoveAllOf(types + [t], t) == types
  {
    var keep := (x: string) => x != t;
    Seqs.FilterAppend(keep, types, [t]);
    Seqs.FilterKeepsAll(keep, types);
    assert Seqs.Filter(keep, [t]) == [];
  }

  /** Replacing at an index changes that entry alone; an index out of range
      changes nothing. */
  lemma ReplaceAtTouchesOnlyIndex<T>(s: seq<T>, index: int, item: T)
    ensures forall i :: 0 <= i < |s| && i != index ==> ReplaceAt(s, index, item)[i] == s[i]
    ensures 0 <= index < |s| ==> ReplaceAt(s, index, item)[index] == item
    ensures !(0 <= index < |s|) ==> ReplaceAt(s, index, item) == s
  {
  }

  /** Removing at an index drops that entry alone, shifting the later ones
      down by one; an index out of range changes nothing. */
  lemma RemoveAtTouchesOnlyIndex<T>(s: seq<T>, index: int)
    ensures forall i :: 0 <= i < |s| && i < index ==> RemoveAt(s, index)[i] == s[i]
    ensures forall i :: 0 <= index <= i < |s| - 1 ==> RemoveAt(s, index)[i] == s[i + 1]
    ensures multiset(RemoveAt(s, index)) ==
      if 0 <= index < |s| then multiset(s) - multiset{s[index]} else multiset(s)
  {
    if 0 <= index < |s| {
      assert s == s[..index] + [s[index]] + s[index + 1..];
    }
  }

  /** Adding a duration and removing the last entry restores the vocabulary. */
  lemma AddThenRemoveDuration(durations: seq<DurationOption>, d: DurationOption)
    ensures RemoveAt(durations + [d], |durations|) == durations
  {
    assert (durations + [d])[..|durations|] == durations;
  }
}
