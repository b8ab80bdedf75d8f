/**
  The two persisted input-method strings and their codec.

  ENABLED_INPUT_METHODS holds `ime0;subtype0;subtype1:ime1;subtype0:ime2`: `:` separates
  entries, and inside an entry `;` separates the input-method id from the hashes of its
  enabled subtypes. DISABLED_SYSTEM_INPUT_METHODS is a `:`-separated list of ids.
  A setting that is absent (`null`) is `None`.
 */
module ImeSettingsCodec {
  import opened Strings

  const InputMethodSeparator: char := ':'
  const InputMethodSubtypeSeparator: char := ';'

  /** Input-method id to the set of its enabled subtype hashes (in string form). */
  type EnabledMap = map<string, set<string>>

  /** An id or hash the format can carry: non-empty and free of both separators. */
  predicate IsToken(s: string)
  {
    s != "" && InputMethodSeparator !in s && InputMethodSubtypeSeparator !in s
  }

  ghost predicate ValidEnabledMap(m: EnabledMap)
  {
    forall id :: id in m ==> IsToken(id) && forall h :: h in m[id] ==> IsToken(h)
  }

  ghost predicate ValidIdSet(ids: set<string>)
  {
    forall id :: id in ids ==> IsToken(id)
  }

  // ---------------------------------------------------------------------------
  // Parsing
  // ---------------------------------------------------------------------------

  /** The id an entry contributes: its first `;`-token, if it has one. */
  function EntryId(entry: string): Option<string>
  {
    var tokens := Split(entry, InputMethodSubtypeSeparator);
    if |tokens| == 0 then None else Some(tokens[0])
  }

  /** The subtype hashes an entry contributes: all of its `;`-tokens after the first. */
  function EntryHashes(entry: string): set<string>
  {
    var tokens := Split(entry, InputMethodSubtypeSeparator);
    if |tokens| == 0 then {} else set h | h in tokens[1..]
  }

  /** The map after reading one more entry: an entry with an id replaces that id's set. */
  function AddEntry(m: EnabledMap, entry: string): EnabledMap
  {
    match EntryId(entry)
    case None => m
    case Some(id) => m[id := EntryHashes(entry)]
  }

  /** The map built from `entries`, read from first to last. */
  function ParseEntries(entries: seq<string>): EnabledMap
    decreases |entries|
  {
    if |entries| == 0 then map[]
    else AddEntry(ParseEntries(entries[..|entries| - 1]), entries[|entries| - 1])
  }

  /** The map `getEnabledInputMethodsAndSubtypeList` returns for the stored string. */
  function ParseEnabled(stored: Option<string>): (m: EnabledMap)
    ensures stored == None || stored == Some("") ==> m == map[]
  {
    match stored
    case None => map[]
    case Some(s) => if s == "" then map[] else ParseEntries(Split(s, InputMethodSeparator))
  }

  /** The set `getDisabledSystemIMEs` returns for the stored string. */
  function ParseDisabled(stored: Option<string>): (ids: set<string>)
    ensures stored == None || stored == Some("") ==> ids == {}
    ensures stored.Some? ==> forall id :: id in ids <==> id in Split(stored.value, InputMethodSeparator)
  {
    match stored
    case None => {}
    case Some(s) => if s == "" then {} else set id | id in Split(s, InputMethodSeparator)
  }

  /** The index of the last entry whose id is `id`. */
  function LastEntryFor(entries: seq<string>, id: string): (r: Option<nat>)
    ensures r.Some? ==> r.value < |entries| && EntryId(entries[r.value]) == Some(id)
    ensures r.Some? ==> forall j :: r.value < j < |entries| ==> EntryId(entries[j]) != Some(id)
    ensures r.None? ==> forall j :: 0 <= j < |entries| ==> EntryId(entries[j]) != Some(id)
    decreases |entries|
  {
    if |entries| == 0 then None
    else if EntryId(entries[|entries| - 1]) == Some(id) then Some(|entries| - 1)
    else LastEntryFor(entries[..|entries| - 1], id)
  }

  /**
    Structure of the parse: an id is a key exactly when some entry starts with it, and its
    set is that of the last such entry (so a repeated id keeps only its last set, and an
    entry without tokens adds nothing).
   */
  lemma {:induction false} ParseEntriesStructure(entries: seq<string>, id: string)
    ensures id in ParseEntries(entries) <==> LastEntryFor(entries, id).Some?
    ensures id in ParseEntries(entries) ==>
      ParseEntries(entries)[id] == EntryHashes(entries[LastEntryFor(entries, id).value])
    decreases |entries|
  {
    if |entries| > 0 {
      var prefix := entries[..|entries| - 1];
      ParseEntriesStructure(prefix, id);
      if EntryId(entries[|entries| - 1]) != Some(id) {
        assert forall j :: 0 <= j < |prefix| ==> prefix[j] == entries[j];
      }
    }
  }

  /** An empty entry (two adjacent `:`) contributes no key. */
  lemma EmptyEntryAddsNoKey(m: EnabledMap)
    ensures AddEntry(m, "") == m
  {
  }

  lemma SplitExampleEntries()
    ensures Split("ime1;sub1::ime2", InputMethodSeparator) == ["ime1;sub1", "", "ime2"]
  {
    ExamplePieces();
    SplitOfPieces("ime1;sub1::ime2", ':', ["ime1;sub1", "", "ime2"]);
  }

  lemma ExamplePieces()
    ensures Tokens("ime1;sub1::ime2", InputMethodSeparator) == ["ime1;sub1", "", "ime2"]
  {
    assert "" + [':'] + "ime2" == ":ime2";
    assert "ime1;sub1" + [':'] + ":ime2" == "ime1;sub1::ime2";
    TokensWithoutSeparator("ime2", ':');
    TokensAfterSeparator("", "ime2", ':');
    TokensAfterSeparator("ime1;sub1", ":ime2", ':');
  }

  lemma ExampleFirstEntry()
    ensures EntryId("ime1;sub1") == Some("ime1") && EntryHashes("ime1;sub1") == {"sub1"}
  {
    assert "ime1" + [';'] + "sub1" == "ime1;sub1";
    TokensWithoutSeparator("sub1", ';');
    TokensAfterSeparator("ime1", "sub1", ';');
    assert Split("ime1;sub1", ';') == ["ime1", "sub1"];
    assert ["ime1", "sub1"][1..] == ["sub1"];
  }

  lemma ExampleLastEntry()
    ensures EntryId("ime2") == Some("ime2") && EntryHashes("ime2") == {}
  {
    TokensWithoutSeparator("ime2", ';');
  }

  /** A trailing `:` adds no token: a disabled list ending in `:` reads as the list without it. */
  lemma TrailingSeparatorExample()
    ensures Split("ime1:", InputMethodSeparator) == ["ime1"]
    ensures ParseDisabled(Some("ime1:")) == {"ime1"}
  {
    assert "ime1" + [':'] == "ime1:";
    SplitTrailingSeparator("ime1", ':');
    TokensWithoutSeparator("ime1", ':');
  }

  /** A trailing `;` adds no empty subtype: `ime1;` enables `ime1` with no subtypes. */
  lemma TrailingSubtypeSeparatorExample()
    ensures EntryId("ime1;") == Some("ime1") && EntryHashes("ime1;") == {}
    ensures ParseEnabled(Some("ime1;")) == map["ime1" := {}]
  {
    assert "ime1" + [';'] == "ime1;";
    SplitTrailingSeparator("ime1", ';');
    TokensWithoutSeparator("ime1", ';');
    TokensWithoutSeparator("ime1;", ':');
    SplitOfPieces("ime1;", ':', ["ime1;"]);
    var entries := ["ime1;"];
    assert entries[..0] == [];
  }

  /** The example of a stored string with an empty entry between two separators. */
  lemma ParseSkipsEmptyEntryExample()
    ensures ParseEnabled(Some("ime1;sub1::ime2")) == map["ime1" := {"sub1"}, "ime2" := {}]
  {
    var entries := ["ime1;sub1", "", "ime2"];
    SplitExampleEntries();
    ExampleFirstEntry();
    ExampleLastEntry();
    assert entries[..2][..1] == entries[..1] == ["ime1;sub1"];
    assert entries[..1][..0] == [];
    assert ParseEntries(entries[..1]) == map["ime1" := {"sub1"}];
    assert ParseEntries(entries[..2]) == map["ime1" := {"sub1"}];
    assert ParseEntries(entries) == map["ime1" := {"sub1"}, "ime2" := {}];
  }

  method GetEnabledInputMethodsAndSubtypeList(stored: Option<string>) returns (imsList: EnabledMap)
    ensures imsList == ParseEnabled(stored)
  {
    imsList := map[];
    if stored.None? || stored.value == "" {
      return;
    }
    var entries := Split(stored.value, InputMethodSeparator);
    var i := 0;
    while i < |entries|
      invariant 0 <= i <= |entries|
      invariant imsList == ParseEntries(entries[..i])
    {
      var subtypeTokens := Split(entries[i], InputMethodSubtypeSeparator);
      if |subtypeTokens| > 0 {
        var subtypeHashes: set<string> := {};
        // The first token is the input-method id.
        var imeId := subtypeTokens[0];
        var j := 1;
        while j < |subtypeTokens|
          invariant 1 <= j <= |subtypeTokens|
          invariant subtypeHashes == set h | h in subtypeTokens[1..j]
        {
          assert subtypeTokens[1..j + 1] == subtypeTokens[1..j] + [subtypeTokens[j]];
          subtypeHashes := subtypeHashes + {subtypeTokens[j]};
          j := j + 1;
        }
        assert subtypeTokens[1..j] == subtypeTokens[1..];
        imsList := imsList[imeId := subtypeHashes];
      }
      assert entries[..i + 1][..i] == entries[..i];
      i := i + 1;
    }
    assert entries[..i] == entries;
  }

  method GetDisabledSystemIMEs(stored: Option<string>) returns (ids: set<string>)
    ensures ids == ParseDisabled(stored)
  {
    ids := {};
    if stored.None? || stored.value == "" {
      return;
    }
    var tokens := Split(stored.value, InputMethodSeparator);
    var i := 0;
    while i < |tokens|
      invariant 0 <= i <= |tokens|
      invariant ids == set id | id in tokens[..i]
    {
      assert tokens[..i + 1] == tokens[..i] + [tokens[i]];
      ids := ids + {tokens[i]};
      i := i + 1;
    }
    assert tokens[..i] == tokens;
  }

  // ---------------------------------------------------------------------------
  // Serialising
  // ---------------------------------------------------------------------------

  /** One serialised entry: an id and its subtype hashes in the order they are written. */
  datatype Entry = Entry(id: string, hashes: seq<string>)

  /** `id;hash0;hash1...` */
  function EntryString(e: Entry): string
  {
    Join([e.id] + e.hashes, InputMethodSubtypeSeparator)
  }

  function EntryStrings(es: seq<Entry>): seq<string>
  {
    seq(|es|, i requires 0 <= i < |es| => EntryString(es[i]))
  }

  /** The entries joined by `:`. */
  function EnabledString(es: seq<Entry>): string
  {
    Join(EntryStrings(es), InputMethodSeparator)
  }

  function EntryIds(es: seq<Entry>): set<string>
  {
    set i | 0 <= i < |es| :: es[i].id
  }

  /** `es` lists every key of `m` once, each with an enumeration of that key's set. */
  ghost predicate EnumeratesMap(es: seq<Entry>, m: EnabledMap)
  {
    && (forall i, j :: 0 <= i < j < |es| ==> es[i].id != es[j].id)
    && EntryIds(es) == m.Keys
    && forall i :: 0 <= i < |es| ==> es[i].id in m && Enumerates(es[i].hashes, m[es[i].id])
  }

  lemma EntryIdsAppend(es: seq<Entry>, e: Entry)
    ensures EntryIds(es + [e]) == EntryIds(es) + {e.id}
  {
    var es' := es + [e];
    forall x | x in EntryIds(es') ensures x in EntryIds(es) + {e.id} {
      var i :| 0 <= i < |es'| && es'[i].id == x;
      if i < |es| {
        assert es'[i] == es[i];
      }
    }
    forall x | x in EntryIds(es) ensures x in EntryIds(es') {
      var i :| 0 <= i < |es| && es[i].id == x;
      assert es'[i] == es[i];
    }
    assert es'[|es|] == e;
  }

  /** `s` is what the serialiser writes for `m` under some iteration order of the map and its sets. */
  ghost predicate SerialisesEnabled(s: string, m: EnabledMap)
  {
    exists es: seq<Entry> :: EnumeratesMap(es, m) && s == EnabledString(es)
  }

  /** `s` is what the serialiser writes for `ids` under some iteration order of the set. */
  ghost predicate SerialisesIds(s: string, ids: set<string>)
  {
    exists order: seq<string> :: Enumerates(order, ids) && s == Join(order, InputMethodSeparator)
  }

  /** Writing one more entry: a `:` goes in front of it unless it is the first. */
  lemma EnabledStringAppend(es: seq<Entry>, e: Entry)
    ensures EnabledString(es + [e]) ==
      if |es| == 0 then EntryString(e) else EnabledString(es) + [InputMethodSeparator] + EntryString(e)
  {
    assert EntryStrings(es + [e]) == EntryStrings(es) + [EntryString(e)];
    if |es| > 0 {
      JoinAppend(EntryStrings(es), EntryString(e), InputMethodSeparator);
    }
  }

  /** Writing one more hash: a `;` goes in front of it. */
  lemma EntryStringAppend(id: string, order: seq<string>, h: string)
    ensures EntryString(Entry(id, order + [h])) == EntryString(Entry(id, order)) + [InputMethodSubtypeSeparator] + h
  {
    var ts := [id] + order;
    JoinAppend(ts, h, InputMethodSubtypeSeparator);
    assert [id] + (order + [h]) == ts + [h];
  }

  method BuildEnabledInputMethodsString(builder: string, imi: string, subtypes: set<string>)
    returns (b: string, ghost order: seq<string>)
    ensures Enumerates(order, subtypes)
    ensures b == builder + EntryString(Entry(imi, order))
  {
    b := builder + imi;
    order := [];
    var remaining := subtypes;
    while remaining != {}
      invariant remaining <= subtypes
      invariant Distinct(order)
      invariant forall h :: h in order <==> h in subtypes && h !in remaining
      invariant b == builder + EntryString(Entry(imi, order))
      decreases remaining
    {
      var subtypeId :| subtypeId in remaining;
      EntryStringAppend(imi, order, subtypeId);
      assert subtypeId !in order;
      b := b + [InputMethodSubtypeSeparator] + subtypeId;
      order := order + [subtypeId];
      remaining := remaining - {subtypeId};
    }
  }

  /** `entries` enumerates the part of `m` whose keys are not in `remaining`. */
  ghost predicate EnumeratesPart(entries: seq<Entry>, m: EnabledMap, remaining: set<string>)
  {
    && remaining <= m.Keys
    && (forall i, j :: 0 <= i < j < |entries| ==> entries[i].id != entries[j].id)
    && EntryIds(entries) == m.Keys - remaining
    && forall i :: 0 <= i < |entries| ==> entries[i].id in m && Enumerates(entries[i].hashes, m[entries[i].id])
  }

  lemma EnumeratesPartStep(entries: seq<Entry>, m: EnabledMap, remaining: set<string>, e: Entry)
    requires EnumeratesPart(entries, m, remaining)
    requires e.id in remaining && Enumerates(e.hashes, m[e.id])
    ensures EnumeratesPart(entries + [e], m, remaining - {e.id})
  {
    EntryIdsAppend(entries, e);
    var es := entries + [e];
    assert forall i :: 0 <= i < |entries| ==> es[i] == entries[i];
    assert e.id !in EntryIds(entries);
  }

  method BuildInputMethodsAndSubtypesString(builder: string, imsList: EnabledMap)
    returns (b: string, ghost entries: seq<Entry>)
    ensures EnumeratesMap(entries, imsList)
    ensures b == builder + EnabledString(entries)
  {
    b := builder;
    entries := [];
    var needsAppendSeparator := false;
    var remaining := imsList.Keys;
    while remaining != {}
      invariant EnumeratesPart(entries, imsList, remaining)
      invariant needsAppendSeparator == (|entries| > 0)
      invariant b == builder + EnabledString(entries)
      decreases remaining
    {
      var imi :| imi in remaining;
      if needsAppendSeparator {
        b := b + [InputMethodSeparator];
      } else {
        needsAppendSeparator := true;
      }
      ghost var order;
      b, order := BuildEnabledInputMethodsString(b, imi, imsList[imi]);
      var e := Entry(imi, order);
      EnabledStringAppend(entries, e);
      EnumeratesPartStep(entries, imsList, remaining, e);
      entries := entries + [e];
      remaining := remaining - {imi};
    }
  }

  method BuildDisabledSystemInputMethods(builder: string, imes: set<string>)
    returns (b: string, ghost order: seq<string>)
    ensures Enumerates(order, imes)
    ensures b == builder + Join(order, InputMethodSeparator)
  {
    b := builder;
    order := [];
    var needsAppendSeparator := false;
    var remaining := imes;
    while remaining != {}
      invariant remaining <= imes
      invariant needsAppendSeparator == (|order| > 0)
      invariant Distinct(order)
      invariant forall x :: x in order <==> x in imes && x !in remaining
      invariant b == builder + Join(order, InputMethodSeparator)
      decreases remaining
    {
      var ime :| ime in remaining;
      if needsAppendSeparator {
        b := b + [InputMethodSeparator];
        JoinAppend(order, ime, InputMethodSeparator);
      } else {
        needsAppendSeparator := true;
      }
      b := b + ime;
      order := order + [ime];
      remaining := remaining - {ime};
    }
  }

  // ---------------------------------------------------------------------------
  // Round trips
  // ---------------------------------------------------------------------------

  lemma EntryStringTokens(e: Entry)
    requires IsToken(e.id)
    requires forall k :: 0 <= k < |e.hashes| ==> IsToken(e.hashes[k])
    ensures Split(EntryString(e), InputMethodSubtypeSeparator) == [e.id] + e.hashes
    ensures InputMethodSeparator !in EntryString(e)
    ensures EntryId(EntryString(e)) == Some(e.id)
    ensures EntryHashes(EntryString(e)) == set h | h in e.hashes
  {
    var ts := [e.id] + e.hashes;
    JoinEnds(ts, InputMethodSubtypeSeparator);
    SplitOfJoin(ts, InputMethodSubtypeSeparator);
    JoinAvoids(ts, InputMethodSubtypeSeparator, InputMethodSeparator);
    assert ts[1..] == e.hashes;
  }

  /** `m` restricted to the keys in `ids`. */
  ghost function Restrict(m: EnabledMap, ids: set<string>): EnabledMap
  {
    map k | k in m && k in ids :: m[k]
  }

  lemma RestrictAdd(m: EnabledMap, ids: set<string>, id: string)
    requires id in m
    ensures Restrict(m, ids + {id}) == Restrict(m, ids)[id := m[id]]
  {
  }

  /** Reading a serialised entry of `m` sets its id to its set in `m`. */
  lemma AddEntryOfEntryString(x: EnabledMap, e: Entry, m: EnabledMap)
    requires ValidEnabledMap(m)
    requires e.id in m && Enumerates(e.hashes, m[e.id])
    ensures AddEntry(x, EntryString(e)) == x[e.id := m[e.id]]
  {
    assert forall k :: 0 <= k < |e.hashes| ==> e.hashes[k] in m[e.id];
    EntryStringTokens(e);
    EnumeratedSet(e.hashes, m[e.id]);
  }

  /** Parsing the first `n` serialised entries gives `m` restricted to their ids. */
  lemma {:induction false} ParseEntryStringsPrefix(es: seq<Entry>, m: EnabledMap, n: nat)
    requires n <= |es|
    requires ValidEnabledMap(m)
    requires forall i :: 0 <= i < |es| ==> es[i].id in m && Enumerates(es[i].hashes, m[es[i].id])
    ensures ParseEntries(EntryStrings(es)[..n]) == Restrict(m, EntryIds(es[..n]))
    decreases n
  {
    if n == 0 {
      assert EntryIds(es[..0]) == {};
    } else {
      ParseEntryStringsPrefix(es, m, n - 1);
      var e := es[n - 1];
      var ts := EntryStrings(es)[..n];
      assert ts[..n - 1] == EntryStrings(es)[..n - 1];
      assert ts[n - 1] == EntryString(e);
      AddEntryOfEntryString(ParseEntries(ts[..n - 1]), e, m);
      assert es[..n] == es[..n - 1] + [e];
      EntryIdsAppend(es[..n - 1], e);
      RestrictAdd(m, EntryIds(es[..n - 1]), e.id);
    }
  }

  /** Parsing what the serialiser wrote for a well-formed map gives back the map. */
  lemma EnabledRoundTrip(s: string, m: EnabledMap)
    requires ValidEnabledMap(m)
    requires SerialisesEnabled(s, m)
    ensures ParseEnabled(Some(s)) == m
  {
    var es: seq<Entry> :| EnumeratesMap(es, m) && s == EnabledString(es);
    if |es| == 0 {
      assert m.Keys == {};
    } else {
      SplitEnabledString(es, m);
      ParseEntryStrings(es, m);
      RestrictToKeys(m, EntryIds(es));
    }
  }

  lemma ParseEntryStrings(es: seq<Entry>, m: EnabledMap)
    requires ValidEnabledMap(m)
    requires forall i :: 0 <= i < |es| ==> es[i].id in m && Enumerates(es[i].hashes, m[es[i].id])
    ensures ParseEntries(EntryStrings(es)) == Restrict(m, EntryIds(es))
  {
    ParseEntryStringsPrefix(es, m, |es|);
    assert EntryStrings(es)[..|es|] == EntryStrings(es);
    assert es[..|es|] == es;
  }

  /** A non-empty enumeration is written as a non-empty string whose `:`-tokens are the entries. */
  lemma SplitEnabledString(es: seq<Entry>, m: EnabledMap)
    requires ValidEnabledMap(m)
    requires EnumeratesMap(es, m)
    requires |es| > 0
    ensures EnabledString(es) != ""
    ensures Split(EnabledString(es), InputMethodSeparator) == EntryStrings(es)
  {
    var ts := EntryStrings(es);
    EntryStringsTokens(es, m);
    JoinEnds(ts, InputMethodSeparator);
    SplitOfJoin(ts, InputMethodSeparator);
  }

  lemma RestrictToKeys(m: EnabledMap, ids: set<string>)
    requires ids == m.Keys
    ensures Restrict(m, ids) == m
  {
  }

  /** Parsing what the serialiser wrote for a well-formed id set gives back the set. */
  lemma DisabledRoundTrip(s: string, ids: set<string>)
    requires ValidIdSet(ids)
    requires SerialisesIds(s, ids)
    ensures ParseDisabled(Some(s)) == ids
  {
    var order: seq<string> :| Enumerates(order, ids) && s == Join(order, InputMethodSeparator);
    if |order| > 0 {
      assert forall i :: 0 <= i < |order| ==> order[i] in ids;
      JoinEnds(order, InputMethodSeparator);
      SplitOfJoin(order, InputMethodSeparator);
    }
  }

  /**
    Shape of the enabled string written for an enumeration `es` of a well-formed map: it is
    empty exactly for the empty map, `:` never comes first or last, the `:`-tokens are the
    entries, and each entry is its id followed by `;hash` per subtype.
   */
  lemma EnabledStringShape(es: seq<Entry>, m: EnabledMap)
    requires ValidEnabledMap(m)
    requires EnumeratesMap(es, m)
    ensures EnabledString(es) == "" <==> m == map[]
    ensures EnabledString(es) != "" ==>
      EnabledString(es)[0] != InputMethodSeparator
      && EnabledString(es)[|EnabledString(es)| - 1] != InputMethodSeparator
      && Split(EnabledString(es), InputMethodSeparator) == EntryStrings(es)
    ensures forall i :: 0 <= i < |es| ==>
      Split(EntryString(es[i]), InputMethodSubtypeSeparator) == [es[i].id] + es[i].hashes
  {
    EntryStringsTokens(es, m);
    if |es| == 0 {
      assert m.Keys == {};
    } else {
      assert es[0].id in m.Keys;
      SplitEnabledString(es, m);
      EnabledStringEnds(es, m);
    }
  }

  /** A non-empty enabled string neither starts nor ends with `:`. */
  lemma EnabledStringEnds(es: seq<Entry>, m: EnabledMap)
    requires ValidEnabledMap(m)
    requires EnumeratesMap(es, m)
    requires |es| > 0
    ensures EnabledString(es) != ""
    ensures EnabledString(es)[0] != InputMethodSeparator
    ensures EnabledString(es)[|EnabledString(es)| - 1] != InputMethodSeparator
  {
    var ts := EntryStrings(es);
    var s := EnabledString(es);
    EntryStringsTokens(es, m);
    JoinEnds(ts, InputMethodSeparator);
    assert s[0] == ts[0][0];
    var last := ts[|ts| - 1];
    assert s[|s| - 1] == last[|last| - 1];
    assert last[|last| - 1] in last;
  }

  lemma EntryStringsTokens(es: seq<Entry>, m: EnabledMap)
    requires ValidEnabledMap(m)
    requires EnumeratesMap(es, m)
    ensures forall i :: 0 <= i < |es| ==>
      Split(EntryString(es[i]), InputMethodSubtypeSeparator) == [es[i].id] + es[i].hashes
      && InputMethodSeparator !in EntryString(es[i]) && EntryString(es[i]) != ""
  {
    forall i | 0 <= i < |es|
      ensures Split(EntryString(es[i]), InputMethodSubtypeSeparator) == [es[i].id] + es[i].hashes
      ensures InputMethodSeparator !in EntryString(es[i]) && EntryString(es[i]) != ""
    {
      EntryStringTokens(es[i]);
    }
  }

  /** What the disabled-set serialiser writes is empty exactly for an empty well-formed set. */
  lemma DisabledStringEmpty(s: string, ids: set<string>)
    requires ValidIdSet(ids)
    requires SerialisesIds(s, ids)
    ensures s == "" <==> ids == {}
  {
    var order: seq<string> :| Enumerates(order, ids) && s == Join(order, InputMethodSeparator);
    if |order| > 0 {
      assert order[0] in ids;
      JoinEnds(order, InputMethodSeparator);
    }
  }
}
