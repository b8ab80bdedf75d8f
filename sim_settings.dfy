/**
  The SIM settings screen: the per-slot list of subscription records it presents, the
  searches over the record lists, the items of the three "activities" drop-downs
  (cellular data, calls, SMS), what a drop-down selection writes, and which item the
  screen highlights for the current default subscription.

  The subscription service is not modelled: the activated-record list and the current
  default subscription ids are inputs, and a selection's effect is returned as a value.
 */
module SimSettings {
  import opened Strings

  const KeyCellularData: string := "sim_cellular_data"
  const KeyCalls: string := "sim_calls"
  const KeySms: string := "sim_sms"

  /** Label of the leading item of the calls and SMS drop-downs (a resource string). */
  const AskFirstTitle: string := "sim_calls_ask_first_prefs_title"

  /** The parts of a subscription record the screen consults. */
  datatype SubInfoRecord = SubInfoRecord(slotId: int, subId: int, displayName: string)

  // ---------------------------------------------------------------------------
  // Searches
  // ---------------------------------------------------------------------------

  /** The first index at or after `from` whose record sits in slot `slotId`. */
  function SlotIndexFrom(records: seq<SubInfoRecord>, slotId: int, from: nat): (r: Option<nat>)
    requires from <= |records|
    ensures r.Some? ==> (from <= r.value < |records| && records[r.value].slotId == slotId
                         && forall j :: from <= j < r.value ==> records[j].slotId != slotId)
    ensures r.None? ==> forall j :: from <= j < |records| ==> records[j].slotId != slotId
    decreases |records| - from
  {
    if from == |records| then None
    else if records[from].slotId == slotId then Some(from)
    else SlotIndexFrom(records, slotId, from + 1)
  }

  /**
    The record `findRecordBySlotId` returns: the first one in list order that sits in the
    slot; nothing when the list is missing or has no record there.
   */
  function FirstOnSlot(list: Option<seq<SubInfoRecord>>, slotId: int): (r: Option<SubInfoRecord>)
    ensures r.None? <==> list.None? || forall j :: 0 <= j < |list.value| ==> list.value[j].slotId != slotId
    ensures r.Some? ==> (r.value.slotId == slotId
      && (exists i :: (0 <= i < |list.value| && list.value[i] == r.value
                       && forall j :: 0 <= j < i ==> list.value[j].slotId != slotId)))
  {
    if list.None? then None
    else match SlotIndexFrom(list.value, slotId, 0)
      case None => None
      case Some(i) => Some(list.value[i])
  }

  /** The first index at or after `from` holding a record with subscription id `subId`. */
  function SubIdIndexFrom(avail: seq<Option<SubInfoRecord>>, subId: int, from: nat): (r: Option<nat>)
    requires from <= |avail|
    ensures r.Some? ==> (from <= r.value < |avail| && avail[r.value].Some? && avail[r.value].value.subId == subId
                         && forall j :: from <= j < r.value ==> avail[j].None? || avail[j].value.subId != subId)
    ensures r.None? ==> forall j :: from <= j < |avail| ==> avail[j].None? || avail[j].value.subId != subId
    decreases |avail| - from
  {
    if from == |avail| then None
    else if avail[from].Some? && avail[from].value.subId == subId then Some(from)
    else SubIdIndexFrom(avail, subId, from + 1)
  }

  /**
    The record `findRecordBySubId` returns: empty slots are skipped, and the first record with
    the subscription id is found; nothing when no record has it.
   */
  function FirstWithSubId(avail: seq<Option<SubInfoRecord>>, subId: int): (r: Option<SubInfoRecord>)
    ensures r.None? <==> forall j :: 0 <= j < |avail| ==> avail[j].None? || avail[j].value.subId != subId
    ensures r.Some? ==> (r.value.subId == subId
      && (exists i :: (0 <= i < |avail| && avail[i] == r
                       && forall j :: 0 <= j < i ==> avail[j].None? || avail[j].value.subId != subId)))
  {
    match SubIdIndexFrom(avail, subId, 0)
    case None => None
    case Some(i) => avail[i]
  }

  // ---------------------------------------------------------------------------
  // Drop-down items
  // ---------------------------------------------------------------------------

  datatype DropDownItem = DropDownItem(title: string, value: Option<SubInfoRecord>)

  /** The calls and SMS drop-downs start with an "ask first" item; cellular data does not. */
  predicate AsksFirst(key: string)
  {
    key == KeyCalls || key == KeySms
  }

  function ItemOffset(key: string): nat
  {
    if AsksFirst(key) then 1 else 0
  }

  /** One item per non-empty slot, in slot order, labelled with the record's display name. */
  function RecordItems(avail: seq<Option<SubInfoRecord>>): seq<DropDownItem>
    decreases |avail|
  {
    if |avail| == 0 then []
    else
      var last := match avail[|avail| - 1]
        case None => []
        case Some(sir) => [DropDownItem(sir.displayName, Some(sir))];
      RecordItems(avail[..|avail| - 1]) + last
  }

  /** The items `createDropDown` gives the drop-down with key `key`. */
  function DropDownItems(key: string, avail: seq<Option<SubInfoRecord>>): seq<DropDownItem>
  {
    (if AsksFirst(key) then [DropDownItem(AskFirstTitle, None)] else []) + RecordItems(avail)
  }

  /** The indices of the non-empty slots, in increasing order. */
  ghost function PresentSlots(avail: seq<Option<SubInfoRecord>>): seq<nat>
    decreases |avail|
  {
    if |avail| == 0 then []
    else PresentSlots(avail[..|avail| - 1]) + (if avail[|avail| - 1].Some? then [|avail| - 1] else [])
  }

  /** The present slots are in range, occupied and increasing, and every occupied slot is one of them. */
  lemma {:induction false} PresentSlotsOrdered(avail: seq<Option<SubInfoRecord>>)
    ensures var idx := PresentSlots(avail);
      && (forall k :: 0 <= k < |idx| ==> idx[k] < |avail| && avail[idx[k]].Some?)
      && (forall k, k' :: 0 <= k < k' < |idx| ==> idx[k] < idx[k'])
      && (forall i :: 0 <= i < |avail| && avail[i].Some? ==> i in idx)
    decreases |avail|
  {
    if |avail| > 0 {
      var n := |avail|;
      var prefix := avail[..n - 1];
      PresentSlotsOrdered(prefix);
      var idx0 := PresentSlots(prefix);
      assert forall k :: 0 <= k < |idx0| ==> avail[idx0[k]] == prefix[idx0[k]];
      assert forall i :: 0 <= i < n - 1 ==> prefix[i] == avail[i];
    }
  }

  /** Item k is the item of the k-th present slot's record. */
  lemma {:induction false} RecordItemsAtPresentSlots(avail: seq<Option<SubInfoRecord>>)
    ensures var items := RecordItems(avail); var idx := PresentSlots(avail);
      && |idx| == |items|
      && forall k :: 0 <= k < |idx| ==>
           (idx[k] < |avail| && avail[idx[k]].Some?
            && items[k] == DropDownItem(avail[idx[k]].value.displayName, avail[idx[k]]))
    decreases |avail|
  {
    if |avail| > 0 {
      var n := |avail|;
      var prefix := avail[..n - 1];
      RecordItemsAtPresentSlots(prefix);
      var idx0 := PresentSlots(prefix);
      assert forall k :: 0 <= k < |idx0| ==> avail[idx0[k]] == prefix[idx0[k]];
    }
  }

  /**
    The record items are exactly the non-empty slots' records in slot order: item k holds the
    record of the k-th non-empty slot, those slots increase, and every non-empty slot has an item.
   */
  lemma RecordItemsLayout(avail: seq<Option<SubInfoRecord>>)
    ensures var items := RecordItems(avail); var idx := PresentSlots(avail);
      && |idx| == |items|
      && (forall k :: 0 <= k < |idx| ==>
            idx[k] < |avail| && avail[idx[k]].Some?
            && items[k] == DropDownItem(avail[idx[k]].value.displayName, avail[idx[k]]))
      && (forall k, k' :: 0 <= k < k' < |idx| ==> idx[k] < idx[k'])
      && (forall i :: 0 <= i < |avail| && avail[i].Some? ==> i in idx)
  {
    PresentSlotsOrdered(avail);
    RecordItemsAtPresentSlots(avail);
  }

  /** The layout of a whole drop-down: the optional leading item, then the record items. */
  lemma DropDownLayout(key: string, avail: seq<Option<SubInfoRecord>>)
    ensures var items := DropDownItems(key, avail);
      && |items| == ItemOffset(key) + |RecordItems(avail)|
      && (AsksFirst(key) ==> items[0] == DropDownItem(AskFirstTitle, None))
      && (forall k :: ItemOffset(key) <= k < |items| ==>
            items[k] == RecordItems(avail)[k - ItemOffset(key)] && items[k].value.Some?
            && items[k].title == items[k].value.value.displayName)
  {
    RecordItemsLayout(avail);
  }

  // ---------------------------------------------------------------------------
  // A drop-down selection
  // ---------------------------------------------------------------------------

  /** What a selection asks the subscription service to store. */
  datatype SubscriptionWrite = SetDefaultDataSubId(subId: int) | SetDefaultVoiceSubId(subId: int) | NoWrite

  /**
    The drop-down callback: the "ask first" item stands for subscription 0; cellular data and
    calls reach their setters, and an SMS selection stores nothing.
   */
  function OnItemSelected(key: string, value: Option<SubInfoRecord>): SubscriptionWrite
  {
    var subId := if value.None? then 0 else value.value.subId;
    if key == KeyCellularData then SetDefaultDataSubId(subId)
    else if key == KeyCalls then SetDefaultVoiceSubId(subId)
    else NoWrite
  }

  // ---------------------------------------------------------------------------
  // Highlighting the default subscription
  // ---------------------------------------------------------------------------

  /** The index `update*Values` selects for the record `sir`, as written: its slot plus the offset. */
  function SelectedIndexAsWritten(key: string, sir: SubInfoRecord): int
  {
    sir.slotId + ItemOffset(key)
  }

  /** The first index at or after `from` of an item holding `sir`. */
  function ItemIndexFrom(items: seq<DropDownItem>, sir: SubInfoRecord, from: nat): (r: Option<nat>)
    requires from <= |items|
    ensures r.Some? ==> (from <= r.value < |items| && items[r.value].value == Some(sir)
                         && forall j :: from <= j < r.value ==> items[j].value != Some(sir))
    ensures r.None? ==> forall j :: from <= j < |items| ==> items[j].value != Some(sir)
    decreases |items| - from
  {
    if from == |items| then None
    else if items[from].value == Some(sir) then Some(from)
    else ItemIndexFrom(items, sir, from + 1)
  }

  /** The index that highlights `sir`: the first item holding it, if there is one. */
  function SelectedIndex(items: seq<DropDownItem>, sir: SubInfoRecord): (r: Option<nat>)
    ensures r.Some? ==> r.value < |items| && items[r.value].value == Some(sir)
    ensures r.Some? ==> forall j :: 0 <= j < r.value ==> items[j].value != Some(sir)
    ensures r.None? <==> forall j :: 0 <= j < |items| ==> items[j].value != Some(sir)
  {
    ItemIndexFrom(items, sir, 0)
  }

  /**
    With slot 0 empty and SIMs in slots 1 and 2, the as-written index for the slot-1 default
    highlights the slot-2 SIM in both the cellular-data and the calls drop-down; the
    corrected index highlights the slot-1 SIM in both.
   */
  lemma AsWrittenSelectsWrongItem()
    ensures var r1 := SubInfoRecord(1, 11, "one");
      var r2 := SubInfoRecord(2, 12, "two");
      var avail := [None, Some(r1), Some(r2)];
      var data := DropDownItems(KeyCellularData, avail);
      var calls := DropDownItems(KeyCalls, avail);
      && FirstWithSubId(avail, 11) == Some(r1)
      && SelectedIndexAsWritten(KeyCellularData, r1) == 1 && data[1].value == Some(r2)
      && SelectedIndexAsWritten(KeyCalls, r1) == 2 && calls[2].value == Some(r2)
      && SelectedIndex(data, r1) == Some(0)
      && SelectedIndex(calls, r1) == Some(1)
  {
    var r1 := SubInfoRecord(1, 11, "one");
    var r2 := SubInfoRecord(2, 12, "two");
    var avail := [None, Some(r1), Some(r2)];
    assert avail[..2][..1] == [None];
    assert avail[..2] == [None, Some(r1)];
    assert RecordItems([None]) == [];
    assert RecordItems(avail[..2]) == [DropDownItem("one", Some(r1))];
    assert RecordItems(avail) == [DropDownItem("one", Some(r1)), DropDownItem("two", Some(r2))];
    assert SubIdIndexFrom(avail, 11, 0) == Some(1);
    var data := DropDownItems(KeyCellularData, avail);
    var calls := DropDownItems(KeyCalls, avail);
    assert data == [DropDownItem("one", Some(r1)), DropDownItem("two", Some(r2))];
    assert calls == [DropDownItem(AskFirstTitle, None)] + data;
    assert ItemIndexFrom(data, r1, 0) == Some(0);
    assert ItemIndexFrom(calls, r1, 1) == Some(1);
  }

  /** With every slot occupied by its own record, each record item sits at its slot's index. */
  lemma {:induction false} RecordItemsOfFullSlots(avail: seq<Option<SubInfoRecord>>)
    requires forall i :: 0 <= i < |avail| ==> avail[i].Some?
    ensures |RecordItems(avail)| == |avail|
    ensures forall k :: 0 <= k < |avail| ==> RecordItems(avail)[k].value == avail[k]
    decreases |avail|
  {
    if |avail| > 0 {
      var prefix := avail[..|avail| - 1];
      assert forall i :: 0 <= i < |prefix| ==> prefix[i] == avail[i];
      RecordItemsOfFullSlots(prefix);
    }
  }

  /**
    The as-written index is right when every slot below the record's is occupied: with every
    slot holding a record of its own slot, both indices agree.
   */
  lemma AsWrittenAgreesWhenSlotsFull(key: string, avail: seq<Option<SubInfoRecord>>, sir: SubInfoRecord)
    requires forall i :: 0 <= i < |avail| ==> avail[i].Some? && avail[i].value.slotId == i
    requires Some(sir) in avail
    ensures SelectedIndex(DropDownItems(key, avail), sir) == Some(SelectedIndexAsWritten(key, sir) as nat)
  {
    RecordItemsOfFullSlots(avail);
    var items := DropDownItems(key, avail);
    var off := ItemOffset(key);
    var s := sir.slotId;
    assert 0 <= s < |avail| && avail[s] == Some(sir);
    assert items[off + s] == RecordItems(avail)[s];
    assert items[off + s].value == Some(sir);
    forall j | 0 <= j < off + s ensures items[j].value != Some(sir) {
      if j >= off {
        assert items[j] == RecordItems(avail)[j - off];
        assert avail[j - off].value.slotId == j - off;
      }
    }
  }

  /** No two records in the slots share a subscription id. */
  ghost predicate DistinctSubIds(avail: seq<Option<SubInfoRecord>>)
  {
    forall i, j :: (0 <= i < |avail| && 0 <= j < |avail| && avail[i].Some? && avail[j].Some?
                    && avail[i].value.subId == avail[j].value.subId) ==> i == j
  }

  /** With distinct subscription ids, looking a record's id up finds that record. */
  lemma FindDistinctSubId(avail: seq<Option<SubInfoRecord>>, i: nat)
    requires DistinctSubIds(avail)
    requires i < |avail| && avail[i].Some?
    ensures FirstWithSubId(avail, avail[i].value.subId) == avail[i]
  {
    var f := FirstWithSubId(avail, avail[i].value.subId);
    var i' :| 0 <= i' < |avail| && avail[i'] == f;
  }

  /** A record item of the drop-down comes from a slot; items before it come from earlier slots. */
  lemma ItemSlot(key: string, avail: seq<Option<SubInfoRecord>>, k: nat) returns (slot: nat)
    requires k < |DropDownItems(key, avail)| && DropDownItems(key, avail)[k].value.Some?
    ensures var items := DropDownItems(key, avail);
      && k >= ItemOffset(key) && slot < |avail| && avail[slot] == items[k].value
      && forall j :: 0 <= j < k ==> items[j].value.None? || exists i :: 0 <= i < slot && items[j].value == avail[i]
  {
    var items := DropDownItems(key, avail);
    var off := ItemOffset(key);
    DropDownLayout(key, avail);
    RecordItemsLayout(avail);
    var idx := PresentSlots(avail);
    slot := idx[k - off];
    forall j | 0 <= j < k && items[j].value.Some?
      ensures exists i :: 0 <= i < slot && items[j].value == avail[i]
    {
      assert idx[j - off] < slot;
      assert items[j].value == avail[idx[j - off]];
    }
  }

  /** With distinct subscription ids, highlighting a record item's record selects that item. */
  lemma HighlightDistinct(key: string, avail: seq<Option<SubInfoRecord>>, k: nat)
    requires DistinctSubIds(avail)
    requires k < |DropDownItems(key, avail)| && DropDownItems(key, avail)[k].value.Some?
    ensures SelectedIndex(DropDownItems(key, avail), DropDownItems(key, avail)[k].value.value) == Some(k)
  {
    var items := DropDownItems(key, avail);
    var slot := ItemSlot(key, avail, k);
    forall j | 0 <= j < k ensures items[j].value != items[k].value {
      if items[j].value.Some? {
        var i :| 0 <= i < slot && items[j].value == avail[i];
      }
    }
  }

  /**
    With distinct subscription ids, picking a record item for data or calls stores that
    record's id, and highlighting the stored id selects the picked item again.
   */
  lemma SelectThenHighlight(key: string, avail: seq<Option<SubInfoRecord>>, k: nat)
    requires key == KeyCellularData || key == KeyCalls
    requires DistinctSubIds(avail)
    requires k < |DropDownItems(key, avail)| && DropDownItems(key, avail)[k].value.Some?
    ensures var items := DropDownItems(key, avail);
      var w := OnItemSelected(key, items[k].value);
      && w.subId == items[k].value.value.subId
      && FirstWithSubId(avail, w.subId) == items[k].value
      && SelectedIndex(items, items[k].value.value) == Some(k)
  {
    var slot := ItemSlot(key, avail, k);
    FindDistinctSubId(avail, slot);
    HighlightDistinct(key, avail, k);
  }

  /** With SIMs in slots 0 and 1, the calls drop-down highlights the slot-1 SIM at index 2 (after "ask first"). */
  lemma CallsSelectionExample()
    ensures var r0 := SubInfoRecord(0, 5, "a");
      var r1 := SubInfoRecord(1, 6, "b");
      SelectedIndex(DropDownItems(KeyCalls, [Some(r0), Some(r1)]), r1) == Some(2)
  {
    var r0 := SubInfoRecord(0, 5, "a");
    var r1 := SubInfoRecord(1, 6, "b");
    AsWrittenAgreesWhenSlotsFull(KeyCalls, [Some(r0), Some(r1)], r1);
  }

  // ---------------------------------------------------------------------------
  // The screen
  // ---------------------------------------------------------------------------

  /** A drop-down preference: its key, its items and the index of its highlighted item. */
  class DropDownPreference {
    const key: string
    var items: seq<DropDownItem>
    var selectedItem: int

    constructor(key: string)
      ensures this.key == key && items == [] && selectedItem == 0
    {
      this.key := key;
      items := [];
      selectedItem := 0;
    }
  }

  /** The per-slot records `createPreferences` builds: entry i is `findRecordBySlotId(i)`. */
  function AvailableRecords(list: Option<seq<SubInfoRecord>>, numSlots: nat): seq<Option<SubInfoRecord>>
  {
    seq(numSlots, i => FirstOnSlot(list, i))
  }

  /**
    An occupied entry of the available list holds a record of the activated list sitting in
    that entry's slot, and an entry is empty exactly when no activated record sits there.
   */
  lemma AvailableRecordsSlots(list: Option<seq<SubInfoRecord>>, numSlots: nat)
    ensures var avail := AvailableRecords(list, numSlots);
      && |avail| == numSlots
      && forall i :: 0 <= i < numSlots ==>
        && (avail[i].Some? ==> avail[i].value.slotId == i && avail[i].value in list.value)
        && (avail[i].None? <==> list.None? || forall j :: 0 <= j < |list.value| ==> list.value[j].slotId != i)
  {
  }

  class SimSettings {
    /** All activated subscription records; missing when the service returned none. */
    var subInfoList: Option<seq<SubInfoRecord>>
    /** One entry per SIM slot, empty for a slot without a record. */
    var availableSubInfos: seq<Option<SubInfoRecord>>

    /** The fragment after `onCreate` has fetched the activated records. */
    constructor(activated: Option<seq<SubInfoRecord>>)
      ensures subInfoList == activated && availableSubInfos == []
    {
      subInfoList := activated;
      availableSubInfos := [];
    }

    method FindRecordBySlotId(slotId: int) returns (r: Option<SubInfoRecord>)
      ensures r == FirstOnSlot(subInfoList, slotId)
    {
      if subInfoList.Some? {
        var records := subInfoList.value;
        for i := 0 to |records|
          invariant forall j :: 0 <= j < i ==> records[j].slotId != slotId
        {
          if records[i].slotId == slotId {
            // The first subscription on a SIM is taken.
            ghost var k := SlotIndexFrom(records, slotId, 0);
            assert k == Some(i);
            return Some(records[i]);
          }
        }
      }
      return None;
    }

    method FindRecordBySubId(subId: int) returns (r: Option<SubInfoRecord>)
      ensures r == FirstWithSubId(availableSubInfos, subId)
    {
      for i := 0 to |availableSubInfos|
        invariant forall j :: 0 <= j < i ==> availableSubInfos[j].None? || availableSubInfos[j].value.subId != subId
      {
        var sir := availableSubInfos[i];
        if sir.Some? && sir.value.subId == subId {
          ghost var k := SubIdIndexFrom(availableSubInfos, subId, 0);
          assert k == Some(i);
          return sir;
        }
      }
      return None;
    }

    /** The `mAvailableSubInfos` construction of `createPreferences`, for `numSlots` SIM slots. */
    method CreatePreferences(numSlots: nat)
      modifies this
      ensures subInfoList == old(subInfoList)
      ensures availableSubInfos == AvailableRecords(subInfoList, numSlots)
    {
      var available: seq<Option<SubInfoRecord>> := [];
      for i := 0 to numSlots
        invariant subInfoList == old(subInfoList)
        invariant |available| == i
        invariant forall j :: 0 <= j < i ==> available[j] == FirstOnSlot(subInfoList, j)
      {
        var sir := FindRecordBySlotId(i);
        available := available + [sir];
      }
      availableSubInfos := available;
    }

    /** `createDropDown`: clear the items, add "ask first" for calls and SMS, then each non-empty slot's record. */
    method CreateDropDown(simPref: DropDownPreference)
      modifies simPref
      ensures simPref.items == DropDownItems(simPref.key, availableSubInfos)
      ensures simPref.selectedItem == old(simPref.selectedItem)
    {
      simPref.items := [];
      if AsksFirst(simPref.key) {
        simPref.items := simPref.items + [DropDownItem(AskFirstTitle, None)];
      }
      ghost var head := simPref.items;
      for i := 0 to |availableSubInfos|
        invariant simPref.items == head + RecordItems(availableSubInfos[..i])
        invariant simPref.selectedItem == old(simPref.selectedItem)
      {
        assert availableSubInfos[..i + 1][..i] == availableSubInfos[..i];
        var sir := availableSubInfos[i];
        if sir.Some? {
          simPref.items := simPref.items + [DropDownItem(sir.value.displayName, sir)];
        }
      }
      assert availableSubInfos[..|availableSubInfos|] == availableSubInfos;
    }

    /**
      `updateCellularDataValues`, `updateCallValues` and `updateSmsValues`, with the index
      corrected: highlight the item holding the record of the default subscription; change
      nothing when no record has that subscription id.
     */
    method UpdateSelectedItem(simPref: DropDownPreference, defaultSubId: int)
      modifies simPref
      ensures simPref.items == old(simPref.items)
      ensures var sir := FirstWithSubId(availableSubInfos, defaultSubId);
        simPref.selectedItem ==
          if sir.Some? && SelectedIndex(simPref.items, sir.value).Some?
          then SelectedIndex(simPref.items, sir.value).value else old(simPref.selectedItem)
    {
      var sir := FindRecordBySubId(defaultSubId);
      if sir.Some? {
        var items := simPref.items;
        for k := 0 to |items|
          invariant forall j :: 0 <= j < k ==> items[j].value != sir
        {
          if items[k].value == sir {
            ghost var idx := ItemIndexFrom(items, sir.value, 0);
            assert idx == Some(k);
            simPref.selectedItem := k;
            return;
          }
        }
      }
    }
  }
}
