/** The medication log's selection state: for each medication, whether the
    user checked it and which dose they picked. It is kept in memory as a map,
    stored in one string preference as `med;status;dose` records joined by
    `|`, loaded when the list adapter is created and saved whenever a
    selection really changes. */
module MedDose {
  import opened Wrappers
  import opened JavaStrings

  const MedDoseSelectedPref: string := "MedDoseSelectedPref"
  const Checked: string := "checked"
  const Unchecked: string := "unchecked"
  const UnknownDose: string := "unknown"

  /** The checked status and the chosen dose of one medication. */
  datatype Selection = Selection(status: string, dose: string)

  const DefaultSelection: Selection := Selection(Unchecked, UnknownDose)

  /** Why loading throws: a medication row with no name (list index out of
      range), or a stored record with fewer than three fields (array index out
      of range). */
  datatype LoadError = EmptyMedRow | ShortRecord(record: string)

  type Selections = map<string, Selection>

  /** The medication names: the first entry of each row that has one. */
  ghost function Meds(medDose: seq<seq<string>>): set<string>
  {
    set i | 0 <= i < |medDose| && |medDose[i]| > 0 :: medDose[i][0]
  }

  /** With no stored string: every medication, in row order, unchecked with an
      unknown dose, added to `acc`. */
  function DefaultsFrom(medDose: seq<seq<string>>, acc: Selections): Result<Selections, LoadError>
  {
    if |medDose| == 0 then Success(acc)
    else if |medDose[0]| == 0 then Failure(EmptyMedRow)
    else DefaultsFrom(medDose[1..], acc[medDose[0][0] := DefaultSelection])
  }

  /** One stored record: its first three `;`-separated fields are the
      medication, the status and the dose; any further field is ignored. */
  function ParseRecord(rec: string): (r: Result<(string, Selection), LoadError>)
    ensures r.Success? <==> |JavaSplit(rec, ';')| >= 3
    ensures r.Failure? ==> r.error == ShortRecord(rec)
    ensures r.Success? ==> ';' !in r.value.0 && ';' !in r.value.1.status && ';' !in r.value.1.dose
  {
    var f := JavaSplit(rec, ';');
    if |f| < 3 then Failure(ShortRecord(rec)) else Success((f[0], Selection(f[1], f[2])))
  }

  /** The stored records, in order, added to `acc`; a later record for the same
      medication overwrites an earlier one. */
  function ParseFrom(recs: seq<string>, acc: Selections): Result<Selections, LoadError>
  {
    if |recs| == 0 then Success(acc)
    else match ParseRecord(recs[0])
      case Failure(e) => Failure(e)
      case Success(entry) => ParseFrom(recs[1..], acc[entry.0 := entry.1])
  }

  /** The selections an adapter over `medDose` starts with, given the stored
      preference (None when it was never saved). */
  function Load(medDose: seq<seq<string>>, saved: Option<string>): (r: Result<Selections, LoadError>)
    ensures saved.None? ==> (r.Success? <==> forall i :: 0 <= i < |medDose| ==> |medDose[i]| > 0)
    ensures saved.None? && r.Success? ==>
      r.value.Keys == Meds(medDose) && forall k :: k in r.value ==> r.value[k] == DefaultSelection
    ensures saved.Some? ==> (r.Success? <==>
      forall i :: 0 <= i < |JavaSplit(saved.value, '|')| ==> |JavaSplit(JavaSplit(saved.value, '|')[i], ';')| >= 3)
  {
    match saved
    case None => DefaultsSpec(medDose, map[]); DefaultsFrom(medDose, map[])
    case Some(s) => ParseFromSucceeds(JavaSplit(s, '|'), map[]); ParseFrom(JavaSplit(s, '|'), map[])
  }

  /** The stored record of one medication. */
  function RecordText(med: string, sel: Selection): string
  {
    Join([med, sel.status, sel.dose], ';')
  }

  /** A record is the name, the status and the dose, each two separated by `;`. */
  lemma RecordTextIs(med: string, sel: Selection)
    ensures RecordText(med, sel) == med + ";" + sel.status + ";" + sel.dose
  {
    var parts := [med, sel.status, sel.dose];
    assert parts[1..] == [sel.status, sel.dose];
    assert parts[1..][1..] == [sel.dose];
    assert Join(parts[1..], ';') == sel.status + ";" + sel.dose;
    assert Join(parts, ';') == med + ";" + (sel.status + ";" + sel.dose);
  }

  /** The records of the medications of `order`, in that order. */
  function Records(order: seq<string>, m: Selections): (r: seq<string>)
    requires forall k :: k in order ==> k in m
    ensures |r| == |order|
    ensures forall i :: 0 <= i < |order| ==> r[i] == RecordText(order[i], m[order[i]])
  {
    if |order| == 0 then [] else [RecordText(order[0], m[order[0]])] + Records(order[1..], m)
  }

  /** The stored string of `m` when its keys are visited in `order`. */
  function Serialize(order: seq<string>, m: Selections): string
    requires forall k :: k in order ==> k in m
  {
    Join(Records(order, m), '|')
  }

  /** `order` visits every key of `m` exactly once. */
  ghost predicate Enumerates(order: seq<string>, m: Selections)
  {
    (forall k :: k in order <==> k in m) &&
    (forall i, j :: 0 <= i < j < |order| ==> order[i] != order[j])
  }

  /** No name, status or dose holds a separator, and no dose is empty (an
      empty last field would be dropped by the split). */
  ghost predicate Storable(m: Selections)
  {
    forall k :: k in m ==>
      '|' !in k && ';' !in k &&
      '|' !in m[k].status && ';' !in m[k].status &&
      '|' !in m[k].dose && ';' !in m[k].dose && m[k].dose != ""
  }

  /** Without a stored string, loading succeeds exactly when every row names
      a medication, and then gives every medication the default selection. */
  lemma {:induction false} DefaultsSpec(medDose: seq<seq<string>>, acc: Selections)
    requires forall k :: k in acc ==> acc[k] == DefaultSelection
    ensures DefaultsFrom(medDose, acc).Success? <==> forall i :: 0 <= i < |medDose| ==> |medDose[i]| > 0
    ensures DefaultsFrom(medDose, acc).Success? ==>
      DefaultsFrom(medDose, acc).value.Keys == acc.Keys + Meds(medDose) &&
      forall k :: k in DefaultsFrom(medDose, acc).value ==> DefaultsFrom(medDose, acc).value[k] == DefaultSelection
  {
    if |medDose| > 0 && |medDose[0]| > 0 {
      var rest := medDose[1..];
      DefaultsSpec(rest, acc[medDose[0][0] := DefaultSelection]);
      assert forall i :: 1 <= i < |medDose| ==> medDose[i] == rest[i - 1];
      assert Meds(medDose) == {medDose[0][0]} + Meds(rest) by {
        forall k | k in Meds(medDose)
          ensures k in {medDose[0][0]} + Meds(rest)
        {
          var i :| 0 <= i < |medDose| && |medDose[i]| > 0 && medDose[i][0] == k;
          if i > 0 {
            assert rest[i - 1][0] == k;
          }
        }
        forall k | k in Meds(rest)
          ensures k in Meds(medDose)
        {
          var i :| 0 <= i < |rest| && |rest[i]| > 0 && rest[i][0] == k;
          assert medDose[i + 1][0] == k;
        }
      }
    }
  }

  /** Reading the records succeeds exactly when every record has at least
      three fields; otherwise the error names the first record that has not. */
  lemma {:induction false} ParseFromSucceeds(recs: seq<string>, acc: Selections)
    ensures ParseFrom(recs, acc).Success? <==> forall i :: 0 <= i < |recs| ==> |JavaSplit(recs[i], ';')| >= 3
    ensures ParseFrom(recs, acc).Failure? ==>
      exists i :: 0 <= i < |recs| && ParseFrom(recs, acc).error == ShortRecord(recs[i]) &&
        |JavaSplit(recs[i], ';')| < 3 && forall j :: 0 <= j < i ==> |JavaSplit(recs[j], ';')| >= 3
  {
    if |recs| > 0 {
      var rest := recs[1..];
      assert forall i :: 1 <= i < |recs| ==> recs[i] == rest[i - 1];
      match ParseRecord(recs[0])
      case Failure(e) =>
        assert ParseFrom(recs, acc).error == ShortRecord(recs[0]);
      case Success(entry) =>
        var acc' := acc[entry.0 := entry.1];
        ParseFromSucceeds(rest, acc');
        if ParseFrom(rest, acc').Failure? {
          var i :| 0 <= i < |rest| && ParseFrom(rest, acc').error == ShortRecord(rest[i]) &&
            |JavaSplit(rest[i], ';')| < 3 && forall j :: 0 <= j < i ==> |JavaSplit(rest[j], ';')| >= 3;
          assert recs[i + 1] == rest[i];
          assert forall j :: 0 <= j < i + 1 ==> |JavaSplit(recs[j], ';')| >= 3 by {
            forall j | 0 <= j < i + 1
              ensures |JavaSplit(recs[j], ';')| >= 3
            {
              if j > 0 {
                assert recs[j] == rest[j - 1];
              }
            }
          }
        }
    }
  }

  /** One more record read after the others is applied last: it overwrites
      any earlier selection of its medication and leaves every other one, and
      the whole read fails when it or an earlier record is short. */
  lemma {:induction false} ParseFromSnoc(recs: seq<string>, rec: string, acc: Selections)
    ensures ParseFrom(recs + [rec], acc).Success? <==> ParseFrom(recs, acc).Success? && ParseRecord(rec).Success?
    ensures ParseFrom(recs + [rec], acc).Success? ==>
      ParseFrom(recs + [rec], acc).value == ParseFrom(recs, acc).value[ParseRecord(rec).value.0 := ParseRecord(rec).value.1]
  {
    var q := recs + [rec];
    if |recs| == 0 {
      assert q == [rec];
      assert q[1..] == [];
    } else {
      assert q[0] == recs[0];
      assert q[1..] == recs[1..] + [rec];
      match ParseRecord(recs[0])
      case Failure(e) =>
      case Success(entry) =>
        ParseFromSnoc(recs[1..], rec, acc[entry.0 := entry.1]);
    }
  }

  /** A storable selection's record reads back as that selection. */
  lemma ParseRecordText(med: string, sel: Selection)
    requires ';' !in med && ';' !in sel.status && ';' !in sel.dose && sel.dose != ""
    ensures ParseRecord(RecordText(med, sel)) == Success((med, sel))
  {
    var parts := [med, sel.status, sel.dose];
    SplitOfJoin(parts, ';');
  }

  /** A character that is neither the separator nor in any piece is not in
      their join. */
  lemma {:induction false} JoinAvoids(parts: seq<string>, sep: char, c: char)
    requires c != sep
    requires forall i :: 0 <= i < |parts| ==> c !in parts[i]
    ensures c !in Join(parts, sep)
  {
    if |parts| > 1 {
      JoinAvoids(parts[1..], sep, c);
    }
  }

  /** Reading the records of `order` adds exactly those medications, with
      their selections in `m`, to `acc`. */
  lemma {:induction false} ParseRecords(order: seq<string>, m: Selections, acc: Selections)
    requires forall k :: k in order ==> k in m
    requires Storable(m)
    ensures ParseFrom(Records(order, m), acc).Success?
    ensures forall k :: k in ParseFrom(Records(order, m), acc).value <==> k in acc || k in order
    ensures forall k :: k in ParseFrom(Records(order, m), acc).value ==>
      ParseFrom(Records(order, m), acc).value[k] == if k in order then m[k] else acc[k]
  {
    if |order| > 0 {
      var med := order[0];
      ParseRecordText(med, m[med]);
      assert Records(order, m)[1..] == Records(order[1..], m);
      ParseRecords(order[1..], m, acc[med := m[med]]);
      assert forall k :: k in order <==> k == med || k in order[1..];
    }
  }

  /** The `|`-split of a saved string is its records. */
  lemma {:induction false} SplitSerialized(order: seq<string>, m: Selections)
    requires |order| > 0
    requires forall k :: k in order ==> k in m
    requires Storable(m)
    ensures JavaSplit(Serialize(order, m), '|') == Records(order, m)
  {
    var recs := Records(order, m);
    forall i | 0 <= i < |recs|
      ensures '|' !in recs[i]
    {
      var sel := m[order[i]];
      JoinAvoids([order[i], sel.status, sel.dose], ';', '|');
    }
    var last := order[|order| - 1];
    RecordTextIs(last, m[last]);
    SplitOfJoin(recs, '|');
  }

  /** Reading the records of every key of `m` gives `m`. */
  lemma {:induction false} ParseAllRecords(order: seq<string>, m: Selections)
    requires forall k :: k in order <==> k in m
    requires Storable(m)
    ensures ParseFrom(Records(order, m), map[]) == Success(m)
  {
    ParseRecords(order, m, map[]);
    var r := ParseFrom(Records(order, m), map[]).value;
    assert r.Keys == m.Keys;
    assert forall k :: k in r ==> r[k] == m[k];
    assert r == m;
  }

  /** Loading what was saved gives back the same selections, whatever order
      the keys were visited in, provided there is at least one and none holds
      a separator or an empty dose. */
  lemma {:induction false} RoundTrip(medDose: seq<seq<string>>, order: seq<string>, m: Selections)
    requires |order| > 0
    requires forall k :: k in order <==> k in m
    requires Storable(m)
    ensures Load(medDose, Some(Serialize(order, m))) == Success(m)
  {
    SplitSerialized(order, m);
    ParseAllRecords(order, m);
  }

  /** The selections after the user sets `med`'s checkbox to `checked` and,
      when `dose` is present, picks that dose. */
  function Updated(m: Selections, checked: bool, med: string, dose: Option<string>): (r: Selections)
    requires med in m
    ensures r.Keys == m.Keys
    ensures r[med].status == (if checked then Checked else Unchecked)
    ensures dose.Some? ==> r[med].dose == dose.value
    ensures dose.None? ==> r[med].dose == m[med].dose
    ensures forall k :: k in m && k != med ==> r[k] == m[k]
  {
    m[med := Selection(if checked then Checked else Unchecked, if dose.Some? then dose.value else m[med].dose)]
  }

  /** Repeating an update changes nothing more. */
  lemma UpdateSettles(m: Selections, checked: bool, med: string, dose: Option<string>)
    requires med in m
    ensures Updated(Updated(m, checked, med, dose), checked, med, dose) == Updated(m, checked, med, dose)
  {
    var r := Updated(m, checked, med, dose);
    var r2 := Updated(r, checked, med, dose);
    assert r2[med] == r[med];
  }

  /** An update with a storable dose keeps the selections storable. */
  lemma UpdateStorable(m: Selections, checked: bool, med: string, dose: Option<string>)
    requires med in m && Storable(m)
    requires dose.Some? ==> '|' !in dose.value && ';' !in dose.value && dose.value != ""
    ensures Storable(Updated(m, checked, med, dose))
  {
  }

  /** The selections with a default entry for `med` when it has none. */
  function WithDefault(m: Selections, med: string): (r: Selections)
    ensures r.Keys == m.Keys + {med}
    ensures forall k :: k in m ==> r[k] == m[k]
    ensures med !in m ==> r[med] == DefaultSelection
  {
    if med in m then m else m[med := DefaultSelection]
  }

  /** The preference store the adapter reads and writes. */
  class Preferences {
    var medDoseSelected: Option<string>
    var lastMedUpdateDate: Option<int>

    constructor (medDoseSelected: Option<string>, lastMedUpdateDate: Option<int>)
      ensures this.medDoseSelected == medDoseSelected && this.lastMedUpdateDate == lastMedUpdateDate
    {
      this.medDoseSelected := medDoseSelected;
      this.lastMedUpdateDate := lastMedUpdateDate;
    }
  }

  /** The list adapter of the medication log: one row per medication (its
      name, then its doses) and the selections. */
  class MedDoseAdapter {
    const medDose: seq<seq<string>>
    const prefs: Preferences
    var medDoseSelected: Selections

    constructor Empty(medDose: seq<seq<string>>, prefs: Preferences)
      ensures this.medDose == medDose && this.prefs == prefs && medDoseSelected == map[]
    {
      this.medDose := medDose;
      this.prefs := prefs;
      medDoseSelected := map[];
    }

    /** Fills the selections from the stored string, or with defaults when
        there is none; `ok` is false where the original throws. */
    method LoadMedDoseSelected() returns (ok: bool)
      modifies this`medDoseSelected
      ensures ok <==> Load(medDose, prefs.medDoseSelected).Success?
      ensures ok ==> medDoseSelected == Load(medDose, prefs.medDoseSelected).value
    {
      var selected := prefs.medDoseSelected;
      medDoseSelected := map[];
      if selected.None? {
        var i := 0;
        while i < |medDose|
          invariant 0 <= i <= |medDose|
          invariant DefaultsFrom(medDose[i..], medDoseSelected) == DefaultsFrom(medDose, map[])
        {
          assert medDose[i..][1..] == medDose[i + 1..];
          if |medDose[i]| == 0 {
            return false;
          }
          medDoseSelected := medDoseSelected[medDose[i][0] := DefaultSelection];
          i := i + 1;
        }
      } else {
        var splitted := JavaSplit(selected.value, '|');
        var i := 0;
        while i < |splitted|
          invariant 0 <= i <= |splitted|
          invariant ParseFrom(splitted[i..], medDoseSelected) == ParseFrom(splitted, map[])
        {
          assert splitted[i..][1..] == splitted[i + 1..];
          var splitted2 := JavaSplit(splitted[i], ';');
          if |splitted2| < 3 {
            return false;
          }
          medDoseSelected := medDoseSelected[splitted2[0] := Selection(splitted2[1], splitted2[2])];
          i := i + 1;
        }
      }
      ok := true;
    }

    /** Writes every selection to the store, keys in an unspecified order,
        and records the time of the update. */
    method SaveMedDoseSelected(nowMillis: int) returns (ghost order: seq<string>)
      modifies prefs
      ensures Enumerates(order, medDoseSelected)
      ensures prefs.medDoseSelected == Some(Serialize(order, medDoseSelected))
      ensures prefs.lastMedUpdateDate == Some(nowMillis)
    {
      var selected := "";
      var rest := medDoseSelected.Keys;
      order := [];
      while rest != {}
        invariant rest <= medDoseSelected.Keys
        invariant forall k :: k in order <==> k in medDoseSelected && k !in rest
        invariant forall i, j :: 0 <= i < j < |order| ==> order[i] != order[j]
        invariant |selected| > 0 <==> |order| > 0
        invariant selected == Serialize(order, medDoseSelected)
        decreases rest
      {
        var med :| med in rest;
        var result := medDoseSelected[med];
        SerializeSnoc(order, med, medDoseSelected);
        if |selected| > 0 {
          selected := selected + "|";
        }
        selected := selected + med + ";" + result.status + ";" + result.dose;
        order := order + [med];
        rest := rest - {med};
      }
      prefs.medDoseSelected := Some(selected);
      prefs.lastMedUpdateDate := Some(nowMillis);
    }

    /** Sets `med`'s status from `checked` and, when `dose` is present, its
        dose; saves only when the selection really changed, and reports
        whether the status did. */
    method UpdateSelected(checked: bool, med: string, dose: Option<string>, nowMillis: int)
      returns (checkChanged: bool, ghost order: seq<string>)
      requires med in medDoseSelected
      modifies this`medDoseSelected, prefs
      ensures medDoseSelected == Updated(old(medDoseSelected), checked, med, dose)
      ensures checkChanged <==> medDoseSelected[med].status != old(medDoseSelected)[med].status
      ensures medDoseSelected[med] != old(medDoseSelected)[med] ==>
        Enumerates(order, medDoseSelected) &&
        prefs.medDoseSelected == Some(Serialize(order, medDoseSelected)) &&
        prefs.lastMedUpdateDate == Some(nowMillis)
      ensures medDoseSelected[med] == old(medDoseSelected)[med] ==> unchanged(prefs)
      ensures Updated(medDoseSelected, checked, med, dose) == medDoseSelected
    {
      ghost var before := medDoseSelected;
      UpdateSettles(before, checked, med, dose);
      var result := medDoseSelected[med];
      var preChecked := result.status;
      var status := if checked then Checked else Unchecked;
      var preDose := result.dose;
      var newDose := if dose.Some? then dose.value else preDose;
      medDoseSelected := medDoseSelected[med := Selection(status, newDose)];
      order := [];
      if preChecked != status || preDose != newDose {
        order := SaveMedDoseSelected(nowMillis);
      }
      checkChanged := preChecked != status;
    }

    /** The part of refreshing a row that gives a medication missing from the
        selections (say, one added to the list by an update) the default
        selection; nothing is saved. */
    method EnsureEntry(med: string)
      modifies this`medDoseSelected
      ensures medDoseSelected == WithDefault(old(medDoseSelected), med)
    {
      if med !in medDoseSelected {
        medDoseSelected := medDoseSelected[med := DefaultSelection];
      }
    }
  }

  /** Saving one more medication appends its record after a `|`. */
  lemma SerializeSnoc(order: seq<string>, med: string, m: Selections)
    requires forall k :: k in order ==> k in m
    requires med in m
    ensures Serialize(order + [med], m) ==
      (if |order| == 0 then "" else Serialize(order, m) + "|") + med + ";" + m[med].status + ";" + m[med].dose
  {
    var recs := Records(order, m);
    assert Records(order + [med], m) == recs + [RecordText(med, m[med])];
    JoinSnoc(recs, RecordText(med, m[med]), '|');
    RecordTextIs(med, m[med]);
  }

  /** Creating the adapter loads the selections; None where loading throws. */
  /** The same update made twice: the second call finds nothing to change, so
      it neither saves (the update date stays the first call's) nor reports a
      status change. */
  method UpdateTwice(adapter: MedDoseAdapter, checked: bool, med: string, dose: Option<string>,
                     firstMillis: int, secondMillis: int)
    returns (firstChanged: bool, secondChanged: bool)
    requires med in adapter.medDoseSelected
    modifies adapter, adapter.prefs
    ensures !secondChanged
    ensures adapter.medDoseSelected == Updated(old(adapter.medDoseSelected), checked, med, dose)
    ensures firstChanged <==> adapter.medDoseSelected[med].status != old(adapter.medDoseSelected)[med].status
    ensures adapter.prefs.lastMedUpdateDate ==
      if adapter.medDoseSelected[med] != old(adapter.medDoseSelected)[med] then Some(firstMillis)
      else old(adapter.prefs.lastMedUpdateDate)
  {
    ghost var order: seq<string>;
    firstChanged, order := adapter.UpdateSelected(checked, med, dose, firstMillis);
    secondChanged, order := adapter.UpdateSelected(checked, med, dose, secondMillis);
  }

  method Create(medDose: seq<seq<string>>, prefs: Preferences) returns (adapter: MedDoseAdapter?)
    ensures adapter != null <==> Load(medDose, prefs.medDoseSelected).Success?
    ensures adapter != null ==>
      fresh(adapter) && adapter.medDose == medDose && adapter.prefs == prefs &&
      adapter.medDoseSelected == Load(medDose, prefs.medDoseSelected).value
  {
    var a := new MedDoseAdapter.Empty(medDose, prefs);
    var ok := a.LoadMedDoseSelected();
    adapter := if ok then a else null;
  }
}
