/**
 How the writes on a thing come down to its fields under what has been declared,
 and when a new declaration can be taken in without reading the store again.
 */
module Declarations {
  import opened Wrappers

  type Key = string
  type TypeName = nat

  datatype Value = Blank | Number(n: int) | Words(text: nat)

  /** One standing write of one key; `None` takes the key off. Oldest first. */
  datatype Write = Write(key: Key, record: nat, value: Option<Value>)

  datatype Folds = Newest | Sum | Describes

  datatype Field = Field(folds: Folds, reference: bool, list: bool)

  datatype Declared = Declared(shipped: bool, fields: map<Key, Field>)

  type Types = map<TypeName, Declared>

  const DESCRIBING_KEYS: set<Key> := {"read_from", "read_ref", "starred", "subject", "purpose", "recorded_by"}

  const VIEW_DECLARATION_KEYS: set<Key> :=
    {"selects", "answers_type", "follow_shape", "follow_relation", "follow_direction", "follow_fits_type"}

  predicate AnyField(types: Types, key: Key, test: Field -> bool) {
    exists name | name in types :: key in types[name].fields && test(types[name].fields[key])
  }

  predicate HoldsAList(types: Types, key: Key) { AnyField(types, key, (f: Field) => f.list) }

  predicate IsReference(types: Types, key: Key) { AnyField(types, key, (f: Field) => f.reference) }

  predicate IsListOfReferences(types: Types, key: Key) { AnyField(types, key, (f: Field) => f.reference && f.list) }

  predicate BuildDescribes(types: Types, key: Key) {
    && key in DESCRIBING_KEYS
    && exists name | name in types :: types[name].shipped && key in types[name].fields && types[name].fields[key].folds.Describes?
  }

  /** One fold per key, whichever types declare it: describing by the build first, then summing, then describing. */
  function FoldOf(types: Types, key: Key): Folds {
    if BuildDescribes(types, key) then Describes
    else if AnyField(types, key, (f: Field) => f.folds.Sum?) then Sum
    else if AnyField(types, key, (f: Field) => f.folds.Describes?) then Describes
    else Newest
  }

  ghost predicate SomeDeclares(types: Types, key: Key, folds: Folds) {
    exists name :: name in types && key in types[name].fields && types[name].fields[key].folds == folds
  }

  /**
   **Which fold wins.** A key of the six that describe where a thing was read or what it is for
   describes as soon as a shipped type says so; else one type that sums it makes it sum.
   */
  lemma WhichFoldWins(types: Types, key: Key)
    ensures
      var byTheBuild := key in {"read_from", "read_ref", "starred", "subject", "purpose", "recorded_by"}
        && exists name :: name in types && types[name].shipped && key in types[name].fields && types[name].fields[key].folds.Describes?;
      && (FoldOf(types, key) == Sum <==> SomeDeclares(types, key, Sum) && !byTheBuild)
      && (FoldOf(types, key) == Newest <==> !SomeDeclares(types, key, Sum) && !SomeDeclares(types, key, Describes))
  {
  }

  /** Whether a blank is a value of the key; otherwise writing one unsets it. */
  predicate KeepsBlanks(types: Types, key: Key) {
    key in VIEW_DECLARATION_KEYS || HoldsAList(types, key)
  }

  function HeldValue(value: Option<Value>, keepsBlanks: bool): Option<Value> {
    if value == Some(Blank) && !keepsBlanks then None else value
  }

  /** What a key holds so far and the running total of a counter. */
  datatype Held = Held(value: Option<Value>, total: int)

  function Next(held: Held, folds: Folds, value: Option<Value>): Held {
    match value
    case None => Held(None, 0)
    case Some(v) =>
      match folds
      case Newest => Held(Some(v), held.total)
      case Describes => held
      case Sum =>
        if v.Number? then Held(Some(Number(held.total + v.n)), held.total + v.n)
        else if held.value.None? then Held(Some(v), held.total)
        else held
  }

  function FoldKey(writes: seq<Write>, key: Key, folds: Folds, keepsBlanks: bool): Held {
    if writes == [] then Held(None, 0)
    else
      var last := writes[|writes| - 1];
      var before := FoldKey(writes[..|writes| - 1], key, folds, keepsBlanks);
      if last.key != key then before else Next(before, folds, HeldValue(last.value, keepsBlanks))
  }

  /** What a read of a key serves: its value, and the way the store shows it. */
  datatype Shown = Shown(value: Value, reference: bool, items: bool)

  function FieldOf(writes: seq<Write>, types: Types, key: Key): Option<Shown> {
    match FoldKey(writes, key, FoldOf(types, key), KeepsBlanks(types, key)).value
    case None => None
    case Some(v) => Some(Shown(v, IsReference(types, key), IsListOfReferences(types, key)))
  }

  function KeysOf(writes: seq<Write>): set<Key> { set w | w in writes :: w.key }

  function FieldsOf(writes: seq<Write>, types: Types): map<Key, Shown> {
    map key | key in KeysOf(writes) && FieldOf(writes, types, key).Some? :: FieldOf(writes, types, key).value
  }

  /** The newest write of `key` at all, and on one record. */
  function LastWrite(writes: seq<Write>, key: Key): Option<Write> {
    if writes == [] then None
    else if writes[|writes| - 1].key == key then Some(writes[|writes| - 1])
    else LastWrite(writes[..|writes| - 1], key)
  }

  function NewestOn(writes: seq<Write>, key: Key, record: nat): Option<Write> {
    if writes == [] then None
    else if writes[|writes| - 1].key == key && writes[|writes| - 1].record == record then Some(writes[|writes| - 1])
    else NewestOn(writes[..|writes| - 1], key, record)
  }

  /** The keys some record's own latest write gives a value. */
  function CarriedBy(writes: seq<Write>): set<Key> {
    set w | w in writes && NewestOn(writes, w.key, w.record).Some? && NewestOn(writes, w.key, w.record).value.value.Some? :: w.key
  }

  // ---- Taking a declaration in without a read ----

  predicate Named(types: Types, name: TypeName, incoming: Declared, key: Key) {
    key in incoming.fields || (name in types && key in types[name].fields)
  }

  datatype Meaning = Meaning(folds: Folds, reference: bool, items: bool)

  function MeaningOf(types: Types, key: Key): Meaning {
    Meaning(FoldOf(types, key), IsReference(types, key), IsListOfReferences(types, key))
  }

  /** The test made before an image takes a declaration in: does a key something holds change its meaning. */
  predicate ChangesARead(types: Types, name: TypeName, incoming: Declared, holds: set<Key>) {
    exists key | key in holds :: Named(types, name, incoming, key)
      && MeaningOf(types, key) != MeaningOf(types[name := incoming], key)
  }

  /** The declaration moves whether a blank written to the key is a value. */
  ghost predicate ListMoves(types: Types, name: TypeName, incoming: Declared, key: Key) {
    KeepsBlanks(types, key) != KeepsBlanks(types[name := incoming], key)
  }

  lemma AnUnnamedKeyIsAskedTheSame(types: Types, name: TypeName, incoming: Declared, key: Key, test: Field -> bool)
    requires !Named(types, name, incoming, key)
    ensures AnyField(types, key, test) == AnyField(types[name := incoming], key, test)
  {
    var after := types[name := incoming];
    if AnyField(types, key, test) {
      var n :| n in types && key in types[n].fields && test(types[n].fields[key]);
      assert n in after && after[n] == types[n];
    }
  }

  lemma AnUnnamedKeyKeepsItsMeaning(types: Types, name: TypeName, incoming: Declared, key: Key)
    requires !Named(types, name, incoming, key)
    ensures MeaningOf(types, key) == MeaningOf(types[name := incoming], key)
    ensures !ListMoves(types, name, incoming, key)
  {
    hide AnyField;
    AnUnnamedKeyIsAskedTheSame(types, name, incoming, key, (f: Field) => f.list);
    AnUnnamedKeyIsAskedTheSame(types, name, incoming, key, (f: Field) => f.reference);
    AnUnnamedKeyIsAskedTheSame(types, name, incoming, key, (f: Field) => f.reference && f.list);
    AnUnnamedKeyIsAskedTheSame(types, name, incoming, key, (f: Field) => f.folds.Sum?);
    AnUnnamedKeyIsAskedTheSame(types, name, incoming, key, (f: Field) => f.folds.Describes?);
    var after := types[name := incoming];
    assert BuildDescribes(types, key) == BuildDescribes(after, key) by {
      if BuildDescribes(types, key) {
        var n :| n in types && types[n].shipped && key in types[n].fields && types[n].fields[key].folds.Describes?;
        assert n in after && after[n] == types[n];
      }
    }
  }

  /** A key reads as a value exactly when its last write is one, unless it only describes a record. */
  lemma {:induction false} TheLastWriteDecides(writes: seq<Write>, key: Key, folds: Folds, keepsBlanks: bool)
    ensures
      var held, last := FoldKey(writes, key, folds, keepsBlanks).value, LastWrite(writes, key);
      && (held.Some? <==> !folds.Describes? && last.Some? && HeldValue(last.value.value, keepsBlanks).Some?)
      && (folds.Newest? && held.Some? ==> held == last.value.value)
  {
    if writes != [] {
      TheLastWriteDecides(writes[..|writes| - 1], key, folds, keepsBlanks);
    }
  }

  lemma {:induction false} TheLastWriteIsItsRecords(writes: seq<Write>, key: Key)
    requires LastWrite(writes, key).Some?
    ensures
      var last := LastWrite(writes, key).value;
      last in writes && last.key == key && NewestOn(writes, key, last.record) == Some(last)
  {
    if writes[|writes| - 1].key != key {
      TheLastWriteIsItsRecords(writes[..|writes| - 1], key);
    }
  }

  // What a counter reads as, in closed form: the sum of its run, or the run's first words.

  /** The values a counter was given since its last take-off; a blank is one where blanks are no values. */
  function RunOf(writes: seq<Write>, key: Key, keepsBlanks: bool): seq<Value> {
    if writes == [] then []
    else
      var last := writes[|writes| - 1];
      if last.key != key then RunOf(writes[..|writes| - 1], key, keepsBlanks)
      else match HeldValue(last.value, keepsBlanks)
           case None => []
           case Some(v) => RunOf(writes[..|writes| - 1], key, keepsBlanks) + [v]
  }

  function SumOf(run: seq<Value>): int {
    if run == [] then 0
    else SumOf(run[..|run| - 1]) + if run[|run| - 1].Number? then run[|run| - 1].n else 0
  }

  predicate HasNumber(run: seq<Value>) { exists v | v in run :: v.Number? }

  /** The sum when the run holds a number, and otherwise its first value. */
  function Reading(run: seq<Value>): Option<Value> {
    if run == [] then None else if HasNumber(run) then Some(Number(SumOf(run))) else Some(run[0])
  }

  lemma {:induction false} ACounterReadsItsRun(writes: seq<Write>, key: Key, keepsBlanks: bool)
    ensures
      var run := RunOf(writes, key, keepsBlanks);
      FoldKey(writes, key, Sum, keepsBlanks) == Held(Reading(run), SumOf(run))
  {
    if writes != [] {
      var init, last := writes[..|writes| - 1], writes[|writes| - 1];
      ACounterReadsItsRun(init, key, keepsBlanks);
      var value := HeldValue(last.value, keepsBlanks);
      if last.key == key && value.Some? {
        OneMoreValue(RunOf(init, key, keepsBlanks), value.value);
      }
    }
  }

  lemma OneMoreValue(run: seq<Value>, v: Value)
    ensures Held(Reading(run + [v]), SumOf(run + [v])) == Next(Held(Reading(run), SumOf(run)), Sum, Some(v))
  {
    var more := run + [v];
    assert more[..|run|] == run && more[|run|] == v;
    assert HasNumber(more) <==> HasNumber(run) || v.Number? by {
      assert v in more && forall x :: x in run ==> x in more;
    }
    if !HasNumber(run) {
      ARunWithoutNumbersSumsToNothing(run);
    }
  }

  lemma {:induction false} ARunWithoutNumbersSumsToNothing(run: seq<Value>)
    requires !HasNumber(run)
    ensures SumOf(run) == 0
  {
    if run != [] {
      assert run[|run| - 1] in run && forall v :: v in run[..|run| - 1] ==> v in run;
      ARunWithoutNumbersSumsToNothing(run[..|run| - 1]);
    }
  }

  /**
   A blank that stands: it is what the key reads as now, or taking it for a value
   changes what a counter's run adds up to or begins with.
   */
  ghost predicate BlankStands(writes: seq<Write>, key: Key, folds: Folds) {
    match folds
    case Newest => LastWrite(writes, key).Some? && LastWrite(writes, key).value.value == Some(Blank)
    case Sum => Reading(RunOf(writes, key, true)) != Reading(RunOf(writes, key, false))
    case Describes => false
  }

  lemma {:induction false} ATakenOffKeyHasNoRun(writes: seq<Write>, key: Key, keepsBlanks: bool)
    requires LastWrite(writes, key).Some? ==> LastWrite(writes, key).value.value.None?
    ensures RunOf(writes, key, keepsBlanks) == []
  {
    if writes != [] && writes[|writes| - 1].key != key {
      ATakenOffKeyHasNoRun(writes[..|writes| - 1], key, keepsBlanks);
    }
  }

  /** What the image asks before it takes a declaration in: the keys its things and records hold. */
  ghost predicate HoldsTheKeysOf(holds: set<Key>, writes: seq<Write>, types: Types) {
    FieldsOf(writes, types).Keys <= holds && CarriedBy(writes) <= holds
  }

  /**
   A declaration that passed the test leaves one key of one thing reading as it
   did if and only if no blank stands under it where its list moves.
   */
  lemma AKeyReadsTheSame(writes: seq<Write>, types: Types, name: TypeName, incoming: Declared, holds: set<Key>, key: Key)
    requires HoldsTheKeysOf(holds, writes, types) && !ChangesARead(types, name, incoming, holds)
    ensures
      FieldOf(writes, types, key) == FieldOf(writes, types[name := incoming], key)
      <==> !(ListMoves(types, name, incoming, key) && BlankStands(writes, key, FoldOf(types, key)))
  {
    hide FoldOf, IsReference, IsListOfReferences, KeepsBlanks, FoldKey, HoldsAList, Reading, RunOf;
    var after := types[name := incoming];
    TheLastWriteDecides(writes, key, FoldOf(types, key), KeepsBlanks(types, key));
    TheLastWriteDecides(writes, key, FoldOf(after, key), KeepsBlanks(after, key));
    ACounterReadsItsRun(writes, key, true);
    ACounterReadsItsRun(writes, key, false);
    if !Named(types, name, incoming, key) {
      AnUnnamedKeyKeepsItsMeaning(types, name, incoming, key);
    } else if key in holds {
      assert MeaningOf(types, key) == MeaningOf(after, key);
    } else {
      if LastWrite(writes, key).Some? {
        TheLastWriteIsItsRecords(writes, key);
      }
      ATakenOffKeyHasNoRun(writes, key, true);
      ATakenOffKeyHasNoRun(writes, key, false);
    }
  }

  ghost predicate NoBlankMoves(writes: seq<Write>, types: Types, name: TypeName, incoming: Declared) {
    forall key :: ListMoves(types, name, incoming, key) ==> !BlankStands(writes, key, FoldOf(types, key))
  }

  /**
   **What the test lets through changes no read, except where a blank stands.** A
   thing reads the same under the declaration if and only if no key of it moves
   between list and no list over a standing blank.
   */
  lemma AThingReadsTheSame(writes: seq<Write>, types: Types, name: TypeName, incoming: Declared, holds: set<Key>)
    requires HoldsTheKeysOf(holds, writes, types) && !ChangesARead(types, name, incoming, holds)
    ensures FieldsOf(writes, types) == FieldsOf(writes, types[name := incoming]) <==> NoBlankMoves(writes, types, name, incoming)
  {
    hide FieldOf, FoldOf, ListMoves, BlankStands;
    var after := types[name := incoming];
    forall key
      ensures
        FieldOf(writes, types, key) == FieldOf(writes, after, key)
        <==> !(ListMoves(types, name, incoming, key) && BlankStands(writes, key, FoldOf(types, key)))
    {
      AKeyReadsTheSame(writes, types, name, incoming, holds, key);
    }
    if FieldsOf(writes, types) == FieldsOf(writes, after) {
      forall key
        ensures FieldOf(writes, types, key) == FieldOf(writes, after, key)
      {
        FieldsSayTheKey(writes, types, key);
        FieldsSayTheKey(writes, after, key);
      }
    }
  }

  lemma {:induction false} FieldsSayTheKey(writes: seq<Write>, types: Types, key: Key)
    ensures FieldOf(writes, types, key) == (if key in FieldsOf(writes, types) then Some(FieldsOf(writes, types)[key]) else None)
  {
    hide FoldOf, IsReference, IsListOfReferences, KeepsBlanks, FoldKey;
    TheLastWriteDecides(writes, key, FoldOf(types, key), KeepsBlanks(types, key));
    if LastWrite(writes, key).Some? {
      TheLastWriteIsItsRecords(writes, key);
    }
  }

  /**
   **Exactly which declarations the test may be trusted with**, whatever the store
   holds: those that move no key, except one that only describes a record, between
   list and no list. The test compares fold, reference and list of references, and
   a plain list is none of these.
   */
  lemma TheTestIsRightExactlyWhenNoListMoves(types: Types, name: TypeName, incoming: Declared)
    requires forall key :: Named(types, name, incoming, key) ==> MeaningOf(types, key) == MeaningOf(types[name := incoming], key)
    ensures
      (forall writes :: FieldsOf(writes, types) == FieldsOf(writes, types[name := incoming]))
      <==> (forall key :: ListMoves(types, name, incoming, key) ==> FoldOf(types, key).Describes?)
  {
    hide FieldOf, FoldOf, ListMoves, CarriedBy;
    var after := types[name := incoming];
    if forall writes :: FieldsOf(writes, types) == FieldsOf(writes, after) {
      forall key | ListMoves(types, name, incoming, key)
        ensures FoldOf(types, key).Describes?
      {
        var writes := [Write(key, 0, Some(Blank))];
        assert FieldsOf(writes, types) == FieldsOf(writes, after);
        FieldsSayTheKey(writes, types, key);
        FieldsSayTheKey(writes, after, key);
        if !FoldOf(types, key).Describes? {
          ABlankTellsAListFromNone(types, name, incoming, key);
        }
      }
    }
    if forall key :: ListMoves(types, name, incoming, key) ==> FoldOf(types, key).Describes? {
      forall writes
        ensures FieldsOf(writes, types) == FieldsOf(writes, after)
      {
        AThingReadsTheSame(writes, types, name, incoming, FieldsOf(writes, types).Keys + CarriedBy(writes));
      }
    }
  }

  lemma ABlankTellsAListFromNone(types: Types, name: TypeName, incoming: Declared, key: Key)
    requires ListMoves(types, name, incoming, key) && !FoldOf(types, key).Describes?
    requires Named(types, name, incoming, key) ==> FoldOf(types, key) == FoldOf(types[name := incoming], key)
    ensures
      var writes := [Write(key, 0, Some(Blank))];
      FieldOf(writes, types, key) != FieldOf(writes, types[name := incoming], key)
  {
    hide FoldOf, IsReference, IsListOfReferences, KeepsBlanks;
    var writes := [Write(key, 0, Some(Blank))];
    if !Named(types, name, incoming, key) {
      AnUnnamedKeyKeepsItsMeaning(types, name, incoming, key);
    }
    TheLastWriteDecides(writes, key, FoldOf(types, key), KeepsBlanks(types, key));
    TheLastWriteDecides(writes, key, FoldOf(types, key), KeepsBlanks(types[name := incoming], key));
  }

  /** A plain list declared over an emptied key: the test lets it through, and the store serves a key the image does not. */
  lemma APlainListOverABlankIsMissed()
    ensures
      var plain, list := Declared(false, map["tags" := Field(Newest, false, false)]), Declared(false, map["tags" := Field(Newest, false, true)]);
      var types: Types := map[0 := plain];
      var writes := [Write("tags", 0, Some(Words(1))), Write("tags", 0, Some(Blank))];
      && (forall holds :: !ChangesARead(types, 0, list, holds))
      && FieldOf(writes, types, "tags") == None
      && FieldOf(writes, types[0 := list], "tags") == Some(Shown(Blank, false, false))
  {
    var plain, list := Declared(false, map["tags" := Field(Newest, false, false)]), Declared(false, map["tags" := Field(Newest, false, true)]);
    var types: Types := map[0 := plain];
    var after := types[0 := list];
    var writes := [Write("tags", 0, Some(Words(1))), Write("tags", 0, Some(Blank))];
    assert MeaningOf(types, "tags") == Meaning(Newest, false, false);
    assert MeaningOf(after, "tags") == Meaning(Newest, false, false);
    assert !KeepsBlanks(types, "tags");
    assert KeepsBlanks(after, "tags") by {
      assert 0 in after && "tags" in after[0].fields;
    }
    TheLastWriteDecides(writes, "tags", Newest, true);
    TheLastWriteDecides(writes, "tags", Newest, false);
    assert forall key :: Named(types, 0, list, key) ==> key == "tags";
  }
}
