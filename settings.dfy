/**
 * The saved settings and the three handlers that rewrite them:
 * `saveCasesChanges` and `saveDescriptionsChanges` rebuild the case-name
 * map and the description map from the rows of a management list, and
 * `saveDescriptionData` records the reminders chosen for one description.
 * A value the handlers store as `undefined` is dropped when the settings
 * are serialised, so the model removes that key instead.
 */
module Settings {
  import opened Wrappers
  import opened JsText

  /** What is kept for a case name. */
  datatype Matter = Matter(attorneys: seq<string>)

  /** What is kept for a user's description: the labels of its reminders. */
  datatype DescriptionSettings = DescriptionSettings(reminders: seq<string>)

  /** A built-in description, which the handlers never change. */
  datatype PresetDescription = PresetDescription(reminders: seq<string>)

  /** The built-in descriptions every fresh settings store starts with. */
  const DefaultPresets: map<string, PresetDescription> := map[
    "Standard Filing Deadline" := PresetDescription(["7AM Day Of", "1 Day", "3 Days", "1 Week", "1 Month"]),
    "Standard Hearing Date" := PresetDescription(["7AM Day Of", "1 Day", "3 Days", "1 Week"]),
    "Standard MSJ Hearing" := PresetDescription(["7AM Day Of", "1 Day", "3 Days", "1 Week", "2 Weeks", "1 Month"])
  ]

  /**
   * One row of a management list: the text in its input and the name the
   * row was shown with (its `data-original`); `""` stands for a row added
   * in the dialog, which has none, since both are falsy.
   */
  datatype Row = Row(input: string, original: string)

  /** A row as the handlers read it: its input trimmed, and its original name. */
  datatype Edit = Edit(name: string, original: string)

  /** The rows as read, one edit per row, in order. */
  function Edits(rows: seq<Row>): (r: seq<Edit>)
    ensures |r| == |rows|
  {
    seq(|rows|, i requires 0 <= i < |rows| => Edit(Trim(rows[i].input), rows[i].original))
  }

  /** An edit writes its name unless the name is blank or belongs to a preset; it is skipped otherwise. */
  predicate Writes(e: Edit, presets: set<string>) {
    e.name != "" && e.name !in presets
  }

  /**
   * What a writing edit stores under its name: the old value of the name it
   * was renamed from (or `empty` when there is none), its own old value
   * when it kept its name (or nothing: `undefined` is dropped), or `empty`
   * for a new row.
   */
  function Written<V>(e: Edit, stored: map<string, V>, empty: V): Option<V> {
    if e.original != "" && e.original != e.name then
      Some(if e.original in stored then stored[e.original] else empty)
    else if e.original != "" then
      (if e.original in stored then Some(stored[e.original]) else None)
    else Some(empty)
  }

  /** The map after one edit has been processed. */
  function Step<V>(updated: map<string, V>, e: Edit, stored: map<string, V>, empty: V, presets: set<string>): map<string, V> {
    if !Writes(e, presets) then updated
    else match Written(e, stored, empty)
      case Some(v) => updated[e.name := v]
      case None => updated - {e.name}
  }

  /** The map the edits rebuild, starting from an empty one and taking the edits in order. */
  function Rebuilt<V>(edits: seq<Edit>, stored: map<string, V>, empty: V, presets: set<string>): map<string, V>
    decreases |edits|
  {
    if edits == [] then map[]
    else Step(Rebuilt(edits[..|edits| - 1], stored, empty, presets), edits[|edits| - 1], stored, empty, presets)
  }

  /** The loop both list handlers run over their rows. */
  method Rebuild<V>(rows: seq<Row>, stored: map<string, V>, empty: V, presets: set<string>) returns (updated: map<string, V>)
    ensures updated == Rebuilt(Edits(rows), stored, empty, presets)
    ensures forall k :: k in updated ==> Listable(k, presets)
  {
    ghost var edits := Edits(rows);
    updated := map[];
    for i := 0 to |rows|
      invariant updated == Rebuilt(edits[..i], stored, empty, presets)
    {
      RebuiltSnoc(edits, stored, empty, presets, i);
      var row := rows[i];
      var name := Trim(row.input);
      assert edits[i] == Edit(name, row.original);
      ghost var before := updated;
      if name != "" && name !in presets {
        if row.original != "" && row.original != name {
          updated := updated[name := if row.original in stored then stored[row.original] else empty];
        } else if row.original != "" {
          if row.original in stored {
            updated := updated[row.original := stored[row.original]];
          } else {
            updated := updated - {row.original};
          }
        } else {
          updated := updated[name := empty];
        }
      }
      assert updated == Step(before, edits[i], stored, empty, presets);
    }
    assert edits[..|rows|] == edits;
    RebuiltKeys(edits, stored, empty, presets);
    EditsTrimmed(rows);
  }

  lemma RebuiltSnoc<V>(edits: seq<Edit>, stored: map<string, V>, empty: V, presets: set<string>, i: nat)
    requires i < |edits|
    ensures Rebuilt(edits[..i + 1], stored, empty, presets) == Step(Rebuilt(edits[..i], stored, empty, presets), edits[i], stored, empty, presets)
  {
    assert edits[..i + 1][..i] == edits[..i];
  }

  /**
   * Each name read from a row is its input trimmed: blank exactly when the
   * input is all white space, and otherwise without white space at either end.
   */
  lemma EditsTrimmed(rows: seq<Row>)
    ensures forall i :: 0 <= i < |rows| ==> Edits(rows)[i].name == Trim(rows[i].input)
    ensures forall i :: 0 <= i < |rows| ==> (Edits(rows)[i].name == "" <==> AllWhitespace(rows[i].input))
    ensures forall i :: 0 <= i < |rows| && Edits(rows)[i].name != "" ==>
      !IsWhitespace(Edits(rows)[i].name[0]) && !IsWhitespace(Edits(rows)[i].name[|Edits(rows)[i].name| - 1])
  {
    forall i | 0 <= i < |rows|
      ensures Edits(rows)[i].name == Trim(rows[i].input)
    {
    }
  }

  /** One step adds at most the edit's own name, and only when the edit writes it. */
  lemma StepKeys<V>(updated: map<string, V>, e: Edit, stored: map<string, V>, empty: V, presets: set<string>, k: string)
    requires k in Step(updated, e, stored, empty, presets)
    ensures k in updated || (Writes(e, presets) && k == e.name)
  {
  }

  /** One step leaves every other name's entry as it was. */
  lemma StepOther<V>(updated: map<string, V>, e: Edit, stored: map<string, V>, empty: V, presets: set<string>, k: string)
    requires !Writes(e, presets) || e.name != k
    ensures var r := Step(updated, e, stored, empty, presets);
      (k in r <==> k in updated) && (k in updated ==> r[k] == updated[k])
  {
  }

  /** Every key of the rebuilt map is the non-blank, non-preset name of one of the edits. */
  lemma {:induction false} RebuiltKeys<V>(edits: seq<Edit>, stored: map<string, V>, empty: V, presets: set<string>)
    ensures forall k :: k in Rebuilt(edits, stored, empty, presets) ==>
      k != "" && k !in presets && exists i :: 0 <= i < |edits| && edits[i].name == k
    decreases |edits|
  {
    if edits != [] {
      var prefix := edits[..|edits| - 1];
      var before := Rebuilt(prefix, stored, empty, presets);
      RebuiltKeys(prefix, stored, empty, presets);
      forall k | k in Rebuilt(edits, stored, empty, presets)
        ensures k != "" && k !in presets && exists i :: 0 <= i < |edits| && edits[i].name == k
      {
        StepKeys(before, edits[|edits| - 1], stored, empty, presets, k);
        if k in before {
          var i :| 0 <= i < |prefix| && prefix[i].name == k;
          assert edits[i] == prefix[i];
        } else {
          assert edits[|edits| - 1].name == k;
        }
      }
    }
  }

  /**
   * The last writing edit with a given name decides that name's entry:
   * later edits with other names and earlier edits with any name do not
   * matter.
   */
  lemma {:induction false} LastEditDecides<V>(edits: seq<Edit>, stored: map<string, V>, empty: V, presets: set<string>, i: nat)
    requires i < |edits| && Writes(edits[i], presets)
    requires forall j :: i < j < |edits| && Writes(edits[j], presets) ==> edits[j].name != edits[i].name
    ensures var r := Rebuilt(edits, stored, empty, presets);
      match Written(edits[i], stored, empty)
      case Some(v) => edits[i].name in r && r[edits[i].name] == v
      case None => edits[i].name !in r
    decreases |edits|
  {
    var prefix := edits[..|edits| - 1];
    if i < |edits| - 1 {
      assert prefix[i] == edits[i];
      forall j | i < j < |prefix| && Writes(prefix[j], presets)
        ensures prefix[j].name != prefix[i].name
      {
        assert prefix[j] == edits[j];
      }
      LastEditDecides(prefix, stored, empty, presets, i);
      StepOther(Rebuilt(prefix, stored, empty, presets), edits[|edits| - 1], stored, empty, presets, edits[i].name);
    }
  }

  /** A name no writing edit carries has no entry. */
  lemma {:induction false} UnnamedAbsent<V>(edits: seq<Edit>, stored: map<string, V>, empty: V, presets: set<string>, k: string)
    requires forall j :: 0 <= j < |edits| && Writes(edits[j], presets) ==> edits[j].name != k
    ensures k !in Rebuilt(edits, stored, empty, presets)
    decreases |edits|
  {
    if edits != [] {
      var prefix := edits[..|edits| - 1];
      forall j | 0 <= j < |prefix| && Writes(prefix[j], presets)
        ensures prefix[j].name != k
      {
        assert prefix[j] == edits[j];
      }
      UnnamedAbsent(prefix, stored, empty, presets, k);
      StepOther(Rebuilt(prefix, stored, empty, presets), edits[|edits| - 1], stored, empty, presets, k);
    }
  }

  /** A key that is not blank, has no white space at either end and is not a preset: a row showing it unedited writes it. */
  predicate Listable(k: string, presets: set<string>) {
    k != "" && !IsWhitespace(k[0]) && !IsWhitespace(k[|k| - 1]) && k !in presets
  }

  /**
   * Saving a list whose rows are exactly the stored keys, none of them
   * edited, gives back the stored map.
   */
  lemma UneditedSaveKeepsMap<V>(rows: seq<Row>, stored: map<string, V>, empty: V, presets: set<string>)
    requires forall k :: k in stored ==> Listable(k, presets)
    requires forall j :: 0 <= j < |rows| ==> rows[j].input == rows[j].original && rows[j].original in stored
    requires forall k :: k in stored ==> exists j :: 0 <= j < |rows| && rows[j].original == k
    ensures Rebuilt(Edits(rows), stored, empty, presets) == stored
  {
    var edits := Edits(rows);
    forall j | 0 <= j < |edits|
      ensures edits[j] == Edit(rows[j].original, rows[j].original)
    {
      NothingToTrim(rows[j].original);
    }
    forall k | k in stored
      ensures exists j :: 0 <= j < |edits| && edits[j].original == k
    {
      var j :| 0 <= j < |rows| && rows[j].original == k;
      assert edits[j].original == k;
    }
    UnchangedEditsKeepMap(edits, stored, empty, presets);
  }

  /** The same fact on the edits: each shows a stored key, unchanged, and every stored key is shown. */
  lemma UnchangedEditsKeepMap<V>(edits: seq<Edit>, stored: map<string, V>, empty: V, presets: set<string>)
    requires forall k :: k in stored ==> k != "" && k !in presets
    requires forall j :: 0 <= j < |edits| ==> edits[j].name == edits[j].original && edits[j].original in stored
    requires forall k :: k in stored ==> exists j :: 0 <= j < |edits| && edits[j].original == k
    ensures Rebuilt(edits, stored, empty, presets) == stored
  {
    var r := Rebuilt(edits, stored, empty, presets);
    forall k | k in stored
      ensures k in r && r[k] == stored[k]
    {
      var j := LastWith(edits, k);
      LastEditDecides(edits, stored, empty, presets, j);
    }
    forall k | k in r
      ensures k in stored
    {
      if k !in stored {
        UnnamedAbsent(edits, stored, empty, presets, k);
      }
    }
    SameEntries(r, stored);
  }

  lemma SameEntries<V>(r: map<string, V>, stored: map<string, V>)
    requires forall k :: k in stored ==> k in r && r[k] == stored[k]
    requires forall k :: k in r ==> k in stored
    ensures r == stored
  {
  }

  /** The last edit showing key `k`. */
  function LastWith(edits: seq<Edit>, k: string): (j: nat)
    requires exists j :: 0 <= j < |edits| && edits[j].original == k
    ensures j < |edits| && edits[j].original == k
    ensures forall i :: j < i < |edits| ==> edits[i].original != k
    decreases |edits|
  {
    if edits[|edits| - 1].original == k then |edits| - 1
    else
      var prefix := edits[..|edits| - 1];
      var j :| 0 <= j < |edits| && edits[j].original == k;
      assert prefix[j] == edits[j];
      var i := LastWith(prefix, k);
      assert edits[i] == prefix[i];
      i
  }

  /** The settings store, as a fresh `initializeAppData` creates it and the handlers update it. */
  class AppData {
    var matters: map<string, Matter>
    var descriptions: map<string, DescriptionSettings>
    var presetDescriptions: map<string, PresetDescription>

    /** No user description shadows a preset one. */
    ghost predicate Valid()
      reads this
    {
      forall k :: k in descriptions ==> k !in presetDescriptions
    }

    constructor ()
      ensures Valid()
      ensures matters == map[] && descriptions == map[] && presetDescriptions == DefaultPresets
    {
      matters := map[];
      descriptions := map[];
      presetDescriptions := DefaultPresets;
    }

    /** `saveCasesChanges`: the case names are rebuilt from the rows; a new case starts with no attorneys. */
    method SaveCasesChanges(rows: seq<Row>)
      requires Valid()
      modifies this
      ensures Valid()
      ensures matters == Rebuilt(Edits(rows), old(matters), Matter([]), {})
      ensures descriptions == old(descriptions) && presetDescriptions == old(presetDescriptions)
    {
      matters := Rebuild(rows, matters, Matter([]), {});
    }

    /**
     * `saveDescriptionsChanges`: the user's descriptions are rebuilt from
     * the rows, a row naming a preset being skipped; a new description
     * starts with no reminders.
     */
    method SaveDescriptionsChanges(rows: seq<Row>)
      requires Valid()
      modifies this
      ensures Valid()
      ensures descriptions == Rebuilt(Edits(rows), old(descriptions), DescriptionSettings([]), old(presetDescriptions).Keys)
      ensures matters == old(matters) && presetDescriptions == old(presetDescriptions)
    {
      descriptions := Rebuild(rows, descriptions, DescriptionSettings([]), presetDescriptions.Keys);
    }

    /**
     * `saveDescriptionData`: a preset is left alone; any other description
     * gets the chosen reminders, created first if it is missing.
     */
    method SaveDescriptionData(description: string, selectedReminders: seq<string>)
      requires Valid()
      modifies this
      ensures Valid()
      ensures description in old(presetDescriptions) ==> descriptions == old(descriptions)
      ensures description !in old(presetDescriptions) ==>
        descriptions == old(descriptions)[description := DescriptionSettings(selectedReminders)]
      ensures matters == old(matters) && presetDescriptions == old(presetDescriptions)
    {
      if description in presetDescriptions {
        return;
      }
      if description !in descriptions {
        descriptions := descriptions[description := DescriptionSettings([])];
      }
      descriptions := descriptions[description := DescriptionSettings(selectedReminders)];
    }
  }
}
