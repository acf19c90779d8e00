/**
 The memory image above the store: a full load to begin with, a re-read of one
 write's footprint after that write, gone when such a read fails, and frozen as it
 was published for as long as a write's outcome is unknown.
 */
module FoldedMemory {
  import opened Wrappers
  import opened Declarations

  type Handle = nat

  datatype Source = Source(home: Handle, claim: nat)

  datatype Fact = Fact(id: nat, derivedFrom: Option<Source>, text: nat)

  /** A thing as stored. `passed` are the keys only its passed-over records carry. */
  datatype Thing = Thing(row: nat, facts: seq<Fact>, writes: seq<Write>, passed: set<Key>)

  /** Kinds declare keys as types do, under names of their own. */
  datatype Store = Store(things: map<Handle, Thing>, types: Types, kinds: set<TypeName>)

  datatype Doc = Doc(row: nat, facts: seq<Fact>, fields: map<Key, Shown>, carried: set<Key>)

  /** One record worked out from a claim. */
  datatype Stands = Stands(source: Source, holder: Handle, fact: nat)

  datatype Image = Image(
    listing: map<Handle, nat>,
    docs: map<Handle, Doc>,
    types: Types,
    kinds: set<TypeName>,
    standing: set<Stands>)

  // ---- What a full load reads ----

  function DocOf(thing: Thing, types: Types): Doc {
    Doc(thing.row, thing.facts, FieldsOf(thing.writes, types), CarriedBy(thing.writes) + thing.passed)
  }

  function DocsOf(store: Store): map<Handle, Doc> {
    map h | h in store.things :: DocOf(store.things[h], store.types)
  }

  function ListingOf(store: Store): map<Handle, nat> {
    map h | h in store.things :: store.things[h].row
  }

  function StandingIn(h: Handle, facts: seq<Fact>): set<Stands> {
    set f | f in facts && f.derivedFrom.Some? :: Stands(f.derivedFrom.value, h, f.id)
  }

  function StandingOf(docs: map<Handle, Doc>): set<Stands> {
    set h, f | h in docs && f in docs[h].facts && f.derivedFrom.Some? :: Stands(f.derivedFrom.value, h, f.id)
  }

  function Load(store: Store): Image {
    Image(ListingOf(store), DocsOf(store), store.types, store.kinds, StandingOf(DocsOf(store)))
  }

  /** The keys some thing or some record of the image carries. */
  function HeldKeys(docs: map<Handle, Doc>): set<Key> {
    (set h, key | h in docs && key in docs[h].fields :: key) + (set h, key | h in docs && key in docs[h].carried :: key)
  }

  // ---- Writes and what each may touch ----

  datatype Edit =
    | PutThing(h: Handle, thing: Thing, gone: set<Handle>)
    | PutClaims(h: Handle, facts: seq<Fact>, writes: seq<Write>, passed: set<Key>)
    | DeclareType(name: TypeName, declared: Declared)
    | DeclareKind(name: TypeName, declared: Declared)

  predicate Accepts(store: Store, edit: Edit) {
    match edit
    case PutThing(h, _, gone) => h !in gone
    case PutClaims(h, _, _, _) => h in store.things
    case DeclareType(name, _) => name !in store.kinds
    case DeclareKind(name, _) => name in store.kinds || name !in store.types
  }

  /** A write of a thing or of its claims. */
  type RowEdit = e: Edit | e.PutThing? || e.PutClaims? witness PutThing(0, Thing(0, [], [], {}), {})

  function Made(store: Store, edit: Edit): Store {
    match edit
    case PutThing(h, thing, gone) => store.(things := store.things[h := thing] - gone)
    case PutClaims(h, facts, writes, passed) =>
      if h in store.things then store.(things := store.things[h := Thing(store.things[h].row, facts, writes, passed)])
      else store
    case DeclareType(name, declared) => store.(types := store.types[name := declared])
    case DeclareKind(name, declared) => store.(types := store.types[name := declared], kinds := store.kinds + {name})
  }

  // ---- Bringing one document in ----

  ghost function Without(standing: set<Stands>, h: Handle, facts: seq<Fact>): set<Stands> {
    set s | s in standing && !(s.holder == h && exists f :: f in facts && f.derivedFrom == Some(s.source))
  }

  method ForgetBuiltOn(standing: set<Stands>, h: Handle, facts: seq<Fact>) returns (left: set<Stands>)
    ensures left == Without(standing, h, facts)
    ensures forall s :: s in left <==> s in standing && !(s.holder == h && exists f :: f in facts && f.derivedFrom == Some(s.source))
  {
    left := standing;
    for i := 0 to |facts|
      invariant left == Without(standing, h, facts[..i])
    {
      if facts[i].derivedFrom.Some? {
        left := set s | s in left && !(s.source == facts[i].derivedFrom.value && s.holder == h);
      }
      assert facts[..i + 1] == facts[..i] + [facts[i]];
    }
    assert facts[..|facts|] == facts;
  }

  method RememberBuiltOn(standing: set<Stands>, h: Handle, facts: seq<Fact>) returns (more: set<Stands>)
    ensures more == standing + StandingIn(h, facts)
    ensures forall s :: s in more <==>
      s in standing || (s.holder == h && exists f :: f in facts && f.derivedFrom == Some(s.source) && f.id == s.fact)
  {
    more := standing;
    for i := 0 to |facts|
      invariant more == standing + StandingIn(h, facts[..i])
    {
      if facts[i].derivedFrom.Some? {
        more := more + {Stands(facts[i].derivedFrom.value, h, facts[i].id)};
      }
      assert facts[..i + 1] == facts[..i] + [facts[i]];
    }
    assert facts[..|facts|] == facts;
  }

  /** The incremental lookup agrees with one made from the documents. */
  ghost predicate Kept(image: Image) { image.standing == StandingOf(image.docs) }

  lemma ForgettingADocument(docs: map<Handle, Doc>, h: Handle)
    requires h in docs
    ensures Without(StandingOf(docs), h, docs[h].facts) == StandingOf(docs - {h})
  {
    var left, built := Without(StandingOf(docs), h, docs[h].facts), StandingOf(docs - {h});
    forall s
      ensures s in left <==> s in built
    {
      if s in left {
        var g, f :| g in docs && f in docs[g].facts && f.derivedFrom.Some? && s == Stands(f.derivedFrom.value, g, f.id);
        assert g != h;
        assert g in docs - {h};
      }
      if s in built {
        var g, f :| g in docs - {h} && f in docs[g].facts && f.derivedFrom.Some? && s == Stands(f.derivedFrom.value, g, f.id);
        assert g in docs && s.holder != h;
      }
    }
  }

  lemma RememberingADocument(docs: map<Handle, Doc>, h: Handle, doc: Doc)
    ensures StandingOf(docs - {h}) + StandingIn(h, doc.facts) == StandingOf(docs[h := doc])
  {
    var both, built := StandingOf(docs - {h}) + StandingIn(h, doc.facts), StandingOf(docs[h := doc]);
    var after := docs[h := doc];
    forall s
      ensures s in both <==> s in built
    {
      if s in StandingOf(docs - {h}) {
        var g, f :| g in docs - {h} && f in docs[g].facts && f.derivedFrom.Some? && s == Stands(f.derivedFrom.value, g, f.id);
        assert g in after && after[g] == docs[g];
      }
      if s in StandingIn(h, doc.facts) {
        assert h in after && after[h] == doc;
      }
      if s in built {
        var g, f :| g in after && f in after[g].facts && f.derivedFrom.Some? && s == Stands(f.derivedFrom.value, g, f.id);
        if g != h {
          assert g in docs - {h} && docs[g] == after[g];
        }
      }
    }
  }

  /** **One document's upkeep costs that document**, and leaves what a build over all of them would make. */
  method TakeInDoc(image: Image, h: Handle, doc: Doc) returns (next: Image)
    ensures next == image.(docs := image.docs[h := doc], standing := next.standing)
    ensures Kept(image) ==> Kept(next)
  {
    hide StandingOf, StandingIn, Without;
    var standing := image.standing;
    if h in image.docs {
      standing := ForgetBuiltOn(standing, h, image.docs[h].facts);
      ForgettingADocument(image.docs, h);
    } else {
      assert image.docs - {h} == image.docs;
    }
    standing := RememberBuiltOn(standing, h, doc.facts);
    RememberingADocument(image.docs, h, doc);
    next := image.(docs := image.docs[h := doc], standing := standing);
  }

  method LetGo(held: map<Handle, Doc>, stood: set<Stands>,
               drop: set<Handle>) returns (docs: map<Handle, Doc>, standing: set<Stands>)
    requires drop <= held.Keys
    ensures docs == held - drop
    ensures stood == StandingOf(held) ==> standing == StandingOf(docs)
  {
    hide StandingOf, Without;
    docs, standing := held, stood;
    var gone := drop;
    while gone != {}
      invariant gone <= docs.Keys && docs - gone == held - drop
      invariant stood == StandingOf(held) ==> standing == StandingOf(docs)
      decreases |gone|
    {
      var h :| h in gone;
      standing := ForgetBuiltOn(standing, h, docs[h].facts);
      ForgettingADocument(docs, h);
      OneByOne(docs, gone, h);
      docs := docs - {h};
      gone := gone - {h};
    }
    assert docs - gone == docs;
  }

  lemma OneByOne(docs: map<Handle, Doc>, gone: set<Handle>, h: Handle)
    requires h in gone && gone <= docs.Keys
    ensures (docs - {h}) - (gone - {h}) == docs - gone
    ensures gone - {h} <= (docs - {h}).Keys && |gone - {h}| < |gone|
  {
  }

  /** Of the documents held, exactly those the new listing names stay. */
  method TakeInListing(image: Image, listing: map<Handle, nat>) returns (next: Image)
    ensures next == image.(listing := listing, docs := image.docs - (image.docs.Keys - listing.Keys), standing := next.standing)
    ensures Kept(image) ==> Kept(next)
  {
    hide StandingOf;
    var docs, standing := LetGo(image.docs, image.standing, image.docs.Keys - listing.Keys);
    next := image.(listing := listing, docs := docs, standing := standing);
  }

  // ---- The image above the store ----

  datatype How = Refuses | Blocks | Writes | Loses | Drops

  /** What goes wrong around a recovery: whether the fence worked, whether the doubtful write had landed, whether the load failed. */
  datatype Fence = Fence(works: bool, landed: bool, loads: bool)

  datatype Answer = NotStarted | Refused | Blocked | Done | Behind | Indeterminate | Unanswered

  /** The store, what a doubtful write may still leave in it, and whether the rail is uncertain. */
  datatype Half = Half(store: Store, pending: Option<Store>, uncertain: bool)

  /** A fence that works settles the doubtful write, and a load after it ends the doubt. */
  function Fenced(half: Half, fence: Fence): Half {
    if !fence.works then half
    else Half(if fence.landed then half.pending.GetOr(half.store) else half.store, None, !fence.loads)
  }

  /** What a write finds: on an uncertain rail it first retries the recovery. */
  function Met(half: Half, first: Fence): Half {
    if half.uncertain then Fenced(half, first) else half
  }

  predicate Lands(half: Half, edit: Edit, how: How, first: Fence) {
    !Met(half, first).uncertain && how.Writes? && Accepts(Met(half, first).store, edit)
  }

  /** What one write, sent on a certain rail, leaves. */
  function Sent(half: Half, edit: Edit, how: How, after: Fence): Half {
    if how.Blocks? || how.Refuses? || !Accepts(half.store, edit) then half
    else if how.Writes? then half.(store := Made(half.store, edit))
    else
      var doubtful := Half(half.store, Some(Made(half.store, edit)), true);
      if how.Loses? then Fenced(doubtful, after) else doubtful
  }

  function Answered(store: Store, edit: Edit, how: How): Answer {
    if how.Blocks? then Blocked
    else if how.Refuses? || !Accepts(store, edit) then Refused
    else if how.Writes? then Done
    else if how.Loses? then Indeterminate
    else Unanswered
  }

  function Attempted(half: Half, edit: Edit, how: How, first: Fence, after: Fence): Half {
    var met := Met(half, first);
    if met.uncertain then met else Sent(met, edit, how, after)
  }

  function AnswerOf(half: Half, edit: Edit, how: How, first: Fence): Answer {
    if Met(half, first).uncertain then NotStarted else Answered(Met(half, first).store, edit, how)
  }

  /** What a write may find: the store as it was, or on an uncertain rail what the doubtful write left in it. */
  predicate MayFind(half: Half, first: Fence, found: Store) {
    if half.uncertain && first.works && first.landed && half.pending.Some? then half.pending == Some(found) else found == half.store
  }

  /**
   **What an answer says of the store.** Done and Refused are the whole truth, with no doubt
   left; after any other answer the store holds what the write found, or that and this write.
   */
  lemma WhatAnAnswerMeans(half: Half, edit: Edit, how: How, first: Fence, after: Fence) returns (found: Store)
    requires half.pending.Some? ==> half.uncertain
    ensures MayFind(half, first, found)
    ensures
      var now := Attempted(half, edit, how, first, after);
      match AnswerOf(half, edit, how, first)
      case Done => how.Writes? && Accepts(found, edit) && now == Half(Made(found, edit), None, false)
      case Refused => (how.Refuses? || !Accepts(found, edit)) && now == Half(found, None, false)
      case Blocked => how.Blocks? && now == Half(found, None, false)
      case NotStarted => half.uncertain && now == (if first.works then Half(found, None, true) else half) && !(first.works && first.loads)
      case Unanswered => how.Drops? && now == Half(found, Some(Made(found, edit)), true)
      case Indeterminate => how.Loses? &&
        if !after.works then now == Half(found, Some(Made(found, edit)), true)
        else now == Half(if after.landed then Made(found, edit) else found, None, !after.loads)
      case Behind => false
  {
    hide Made, Accepts;
    found := Met(half, first).store;
  }

  /** **A name stands for a type or for a kind for good**, and a declaration touches its own name alone. */
  lemma TypesAndKindsStayApart(store: Store, edit: Edit)
    requires store.kinds <= store.types.Keys && Accepts(store, edit)
    ensures
      var after := Made(store, edit);
      && after.kinds <= after.types.Keys
      && (forall name :: name in store.types ==> (name in after.kinds <==> name in store.kinds))
      && (edit.DeclareType? ==> edit.name !in after.kinds)
      && (edit.DeclareKind? ==> edit.name in after.kinds)
      && (if edit.DeclareType? || edit.DeclareKind? then
            && after.things == store.things && edit.name in after.types && after.types[edit.name] == edit.declared
            && (forall name :: name != edit.name ==>
                  && (name in after.types <==> name in store.types) && (name in after.kinds <==> name in store.kinds)
                  && (name in store.types ==> after.types[name] == store.types[name]))
          else after.types == store.types && after.kinds == store.kinds)
  {
  }

  /** **A declaration is refused only for the other one's name.** */
  lemma OnlyATakenNameIsRefused(store: Store, name: TypeName, declared: Declared)
    requires store.kinds <= store.types.Keys
    ensures name !in store.types ==> Accepts(store, DeclareType(name, declared)) && Accepts(store, DeclareKind(name, declared))
    ensures name in store.types ==> (Accepts(store, DeclareType(name, declared)) <==> !Accepts(store, DeclareKind(name, declared)))
  {
  }

  lemma DocsAfterAWrite(before: Store, edit: Edit)
    requires Accepts(before, edit) && (edit.PutThing? || edit.PutClaims?)
    ensures
      var after := Made(before, edit);
      && edit.h in after.things && after.types == before.types && after.kinds == before.kinds
      && DocsOf(after) == DocsOf(before)[edit.h := DocOf(after.things[edit.h], after.types)] - (if edit.PutThing? then edit.gone else {})
      && ListingOf(after).Keys == DocsOf(after).Keys
      && (edit.PutClaims? ==> ListingOf(after) == ListingOf(before))
  {
    hide FieldsOf, CarriedBy;
  }

  class Folded {
    var store: Store
    var pending: Option<Store>
    var uncertain: bool
    var image: Option<Image>
    var wanted: bool
    var generation: nat
    ghost var published: Store
    ghost var seen: map<nat, Option<Image>>

    /** `seen` is what the image was at each count of its changes. */
    ghost predicate Valid()
      reads this
    {
      && (pending.Some? ==> uncertain)
      && generation in seen && seen[generation] == image
      && (forall g: nat :: g in seen <==> g <= generation)
    }

    /** No image, or a full load: of the present store, or on an uncertain rail of the published one. */
    ghost predicate Right()
      reads this
    {
      image.Some? ==> image.value == Load(if uncertain then published else store)
    }

    function Now(): Half
      reads this
    {
      Half(store, pending, uncertain)
    }

    ghost predicate Extends(before: map<nat, Option<Image>>)
      reads this
    {
      forall g :: g in before ==> g in seen && seen[g] == before[g]
    }

    constructor (inner: Store)
      ensures Valid() && Right() && store == inner && image.None? && !wanted && !uncertain && pending.None?
    {
      store, pending, uncertain, image, wanted, generation := inner, None, false, None, false, 0;
      published, seen := inner, map[0 := None];
    }

    method Change(next: Option<Image>)
      requires Valid()
      modifies this`image, this`generation, this`seen
      ensures Valid() && image == next && Extends(old(seen))
      ensures generation == old(generation) + 1
    {
      image, generation := next, generation + 1;
      seen := seen[generation := image];
    }

    /** Full on success; on failure none, except that doubt keeps what was published. */
    method Fill(loads: bool) returns (ok: bool)
      requires Valid()
      modifies this`image, this`generation, this`seen
      ensures Valid() && Extends(old(seen)) && ok == loads
      ensures image == if loads then Some(Load(store)) else if uncertain then old(image) else None
    {
      if loads {
        Change(Some(Load(store)));
      } else if !uncertain {
        Change(None);
      }
      ok := loads;
    }

    /** The boot path. */
    method Rebuild(loads: bool) returns (ok: bool)
      requires Valid()
      modifies this
      ensures Valid() && Extends(old(seen)) && store == old(store) && uncertain == old(uncertain) && pending == old(pending)
      ensures ok == (loads && !uncertain)
      ensures wanted == (old(wanted) || !uncertain)
      ensures old(uncertain) ==> image == old(image) && published == old(published)
      ensures !old(uncertain) ==> image == if loads then Some(Load(store)) else None
    {
      if uncertain {
        return false;
      }
      wanted := true;
      ok := Fill(loads);
    }

    /** Brings in a write that touched one thing; `relist` reads the listing too. */
    method Refresh(ghost before: Store, edit: Edit, loads: bool) returns (ok: bool)
      requires Valid() && !uncertain && (edit.PutThing? || edit.PutClaims?)
      requires Accepts(before, edit) && store == Made(before, edit)
      modifies this`image, this`generation, this`seen
      ensures Valid() && Extends(old(seen))
      ensures !wanted ==> ok && image == old(image) && generation == old(generation)
      ensures wanted ==> ok == loads && (loads <==> image.Some?)
      ensures wanted && loads && (old(image).Some? ==> old(image).value == Load(before)) ==> image.value == Load(store)
    {
      hide DocsOf, ListingOf, StandingOf, DocOf;
      if !wanted {
        return true;
      }
      if image.None? {
        ok := Fill(loads);
        return;
      }
      if !loads {
        Change(None);
        return false;
      }
      ghost var was := image.value;
      DocsAfterAWrite(before, edit);
      var next := TakeInDoc(image.value, edit.h, DocOf(store.things[edit.h], store.types));
      if edit.PutThing? {
        next := TakeInListing(next, ListingOf(store));
        if was == Load(before) {
          ListingLetsGo(before, edit, DocsOf(before)[edit.h := DocOf(store.things[edit.h], store.types)]);
        }
      } else if was == Load(before) {
        assert next.docs == DocsOf(store) by {
          assert next.docs - {} == next.docs;
        }
      }
      Change(Some(next));
      ok := true;
    }

    /** For a write without a footprint: a wanted image becomes a full load or none. */
    method Reload(loads: bool) returns (ok: bool)
      requires Valid() && !uncertain
      modifies this`image, this`generation, this`seen
      ensures Valid() && Extends(old(seen)) && ok == (!wanted || loads)
      ensures image == if !wanted then old(image) else if loads then Some(Load(store)) else None
    {
      if !wanted {
        return true;
      }
      ok := Fill(loads);
    }

    /** Settles what a doubtful write left and loads the store; short of both, the doubt stays. */
    method Recover(fence: Fence) returns (ok: bool)
      requires Valid() && uncertain
      modifies this
      ensures Valid() && Extends(old(seen)) && wanted == old(wanted) && published == old(published)
      ensures ok == (fence.works && fence.loads)
      ensures ok ==> image == Some(Load(store)) && pending.None?
      ensures !ok ==> image == old(image)
      ensures Now() == Fenced(old(Now()), fence)
    {
      if !fence.works {
        return false;
      }
      if pending.Some? && fence.landed {
        store := pending.value;
      }
      pending := None;
      ok := Fill(fence.loads);
      if ok {
        uncertain := false;
      }
    }

    /** The rail is uncertain from here: the store may come to hold `next`. */
    method Doubt(next: Store)
      requires Valid() && !uncertain
      modifies this`uncertain, this`pending, this`published
      ensures Valid() && uncertain && pending == Some(next) && published == store
    {
      uncertain, pending := true, Some(next);
      published := store;
    }

    /** The write may start exactly if the rail is certain, or one recovery makes it so. */
    method Begin(first: Fence) returns (started: bool)
      requires Valid()
      modifies this
      ensures Valid() && Extends(old(seen)) && wanted == old(wanted) && published == old(published)
      ensures Now() == Met(old(Now()), first) && started == !uncertain
      ensures image == if old(uncertain) && started then Some(Load(store)) else old(image)
    {
      started := true;
      if uncertain {
        started := Recover(first);
      }
    }

    /** One write sent on a certain rail, up to the store's answer. */
    method Send(edit: Edit, how: How, after: Fence) returns (landed: bool, changed: bool, answer: Answer)
      requires Valid() && !uncertain
      modifies this
      ensures Valid() && Extends(old(seen)) && wanted == old(wanted)
      ensures Now() == Sent(old(Now()), edit, how, after) && answer == Answered(old(store), edit, how)
      ensures landed == answer.Done? && changed == (landed && store != old(store))
      ensures uncertain ==> published == old(store)
      ensures image == if answer.Indeterminate? && !uncertain then Some(Load(store)) else old(image)
    {
      hide Load, Made, Accepts;
      landed, changed := false, false;
      if how.Blocks? {
        answer := Blocked;
      } else if how.Refuses? || !Accepts(store, edit) {
        answer := Refused;
      } else if how.Writes? {
        changed := Made(store, edit) != store;
        store := Made(store, edit);
        landed, answer := true, Done;
      } else {
        Doubt(Made(store, edit));
        if how.Loses? {
          var ok := Recover(after);
          answer := Indeterminate;
        } else {
          answer := Unanswered;
        }
      }
    }

    /** One write through the guard, up to the store's answer. */
    method Attempt(edit: Edit, how: How, first: Fence, after: Fence)
      returns (landed: bool, changed: bool, answer: Answer, ghost before: Store)
      requires Valid()
      modifies this
      ensures Valid() && Extends(old(seen)) && wanted == old(wanted)
      ensures Now() == Attempted(old(Now()), edit, how, first, after)
      ensures before == Met(old(Now()), first).store && landed == Lands(old(Now()), edit, how, first)
      ensures landed ==> changed == (store != before)
      ensures old(Right()) && !landed ==> Right()
      ensures landed ==> image == if old(uncertain) then Some(Load(before)) else old(image)
      ensures answer == AnswerOf(old(Now()), edit, how, first)
      ensures answer.Indeterminate? && !uncertain ==> image == Some(Load(store))
    {
      hide Load, Made, Accepts, Fenced;
      var started := Begin(first);
      landed, changed, answer, before := false, false, NotStarted, store;
      if started {
        landed, changed, answer := Send(edit, how, after);
      }
    }

    /**
     A write of a thing or of its claims. **With the image wanted it is right
     again or gone**, and a write whose read-back worked leaves it full, whatever
     was lost before. An image held without being wanted does not follow.
     */
    method Write(edit: RowEdit, how: How, first: Fence, after: Fence, loads: bool, reports: bool)
      returns (answer: Answer, ghost before: Store)
      requires Valid()
      modifies this
      ensures Valid() && Extends(old(seen)) && wanted == old(wanted)
      ensures Now() == Attempted(old(Now()), edit, how, first, after) && before == Met(old(Now()), first).store
      ensures
        answer == if Lands(old(Now()), edit, how, first) && wanted && reports && !loads then Behind
                  else AnswerOf(old(Now()), edit, how, first)
      ensures old(Right()) && (wanted || !Lands(old(Now()), edit, how, first)) ==> Right()
      ensures
        old(Right()) && Lands(old(Now()), edit, how, first)
        ==> (Right() <==> wanted || image.None? || Load(store) == Load(before))
      ensures wanted && Lands(old(Now()), edit, how, first) ==> (loads <==> image.Some?)
      ensures wanted && loads && old(Right()) && Lands(old(Now()), edit, how, first) ==> image == Some(Load(store))
      ensures !wanted && !old(uncertain) && Lands(old(Now()), edit, how, first) ==> image == old(image)
      ensures old(uncertain) && Lands(old(Now()), edit, how, first) && !wanted ==> image == Some(Load(before))
      ensures answer.Indeterminate? && !uncertain ==> image == Some(Load(store))
    {
      hide Load;
      var landed, changed;
      landed, changed, answer, before := Attempt(edit, how, first, after);
      if landed {
        var ok := Refresh(before, edit, loads);
        if !ok && reports {
          answer := Behind;
        }
      }
    }

    /**
     A declaration of a type. The image follows without a read when the test says
     no held key changes its meaning. **It is then right exactly when no blank
     stands under a key that moves between list and no list.**
     */
    method Declare(name: TypeName, declared: Declared, how: How, first: Fence, after: Fence, loads: bool)
      returns (answer: Answer, patched: bool, ghost before: Store)
      requires Valid()
      modifies this
      ensures Valid() && Extends(old(seen)) && wanted == old(wanted)
      ensures Now() == Attempted(old(Now()), DeclareType(name, declared), how, first, after)
      ensures before == Met(old(Now()), first).store && answer == AnswerOf(old(Now()), DeclareType(name, declared), how, first)
      ensures old(Right()) && !answer.Done? ==> Right()
      ensures old(Right()) && wanted && answer.Done? && !patched ==> Right()
      ensures old(Right()) && patched ==> (Right() <==> BlanksStay(before, name, declared))
      ensures !wanted && answer.Done? && !patched ==> image == if old(uncertain) then Some(Load(before)) else old(image)
      ensures old(Right()) && !wanted && answer.Done? && !patched ==> (Right() <==> image.None? || Load(store) == Load(before))
      ensures wanted && answer.Done? && (patched || loads) ==> image.Some?
      ensures patched ==> answer.Done? && image.Some? && name in image.value.types && image.value.types[name] == declared
    {
      hide DocsOf, ListingOf, StandingOf, HeldKeys, ChangesARead, BlanksStay;
      patched := false;
      var landed, changed;
      landed, changed, answer, before := Attempt(DeclareType(name, declared), how, first, after);
      if !landed {
        return;
      }
      if image.Some? && name in image.value.types && image.value.types[name] == declared {
        if old(Right()) {
          ARepeatedDeclarationChangesNothing(before, name, declared);
        }
        return;
      }
      if image.Some? && !ChangesARead(image.value.types, name, declared, HeldKeys(image.value.docs)) {
        patched := true;
        if old(Right()) {
          ADeclarationTakenIn(before, name, declared);
        }
        Change(Some(image.value.(types := image.value.types[name := declared])));
      } else {
        var ok := Reload(loads);
      }
    }

    /** A declaration of a kind, read in whole when it changed the store. */
    method SayKind(name: TypeName, declared: Declared, how: How, first: Fence, after: Fence, loads: bool)
      returns (answer: Answer, ghost before: Store)
      requires Valid()
      modifies this
      ensures Valid() && Extends(old(seen)) && wanted == old(wanted)
      ensures Now() == Attempted(old(Now()), DeclareKind(name, declared), how, first, after)
      ensures before == Met(old(Now()), first).store && answer == AnswerOf(old(Now()), DeclareKind(name, declared), how, first)
      ensures old(Right()) && (wanted || !answer.Done?) ==> Right()
      ensures wanted && answer.Done? && store != before ==> image == if loads then Some(Load(store)) else None
      ensures answer.Done? && store == before && !old(uncertain) ==> image == old(image)
    {
      hide Load;
      var landed, changed;
      landed, changed, answer, before := Attempt(DeclareKind(name, declared), how, first, after);
      if landed && changed {
        var ok := Reload(loads);
      }
    }

    /** A read of one document; an uncertain rail with no image refuses it. */
    method ReadDoc(h: Handle, reaches: bool) returns (answer: Result<Option<Doc>, Answer>)
      requires Valid()
      ensures
        Right() && answer.Ok?
        ==> answer.value == (if h in Load(if uncertain then published else store).docs
                             then Some(Load(if uncertain then published else store).docs[h]) else None)
      ensures answer.Err? <==> image.None? && (uncertain || !reaches)
    {
      if uncertain && image.None? {
        return Err(NotStarted);
      }
      if image.Some? {
        var docs := image.value.docs;
        return Ok(if h in docs then Some(docs[h]) else None);
      }
      if !reaches {
        return Err(Refused);
      }
      return Ok(if h in store.things then Some(DocOf(store.things[h], store.types)) else None);
    }

    /** The change signal of a held image. **Two equal signals were given by one image.** */
    method Signal() returns (signal: Option<nat>)
      requires Valid()
      ensures signal == if image.Some? then Some(generation) else None
      ensures signal.Some? ==> signal.value in seen && seen[signal.value] == image
    {
      signal := if image.Some? then Some(generation) else None;
    }
  }

  lemma ListingLetsGo(before: Store, edit: Edit, docs: map<Handle, Doc>)
    requires edit.PutThing? && Accepts(before, edit)
    requires docs == DocsOf(before)[edit.h := DocOf(Made(before, edit).things[edit.h], Made(before, edit).types)]
    ensures
      var after := Made(before, edit);
      docs - (docs.Keys - ListingOf(after).Keys) == DocsOf(after)
  {
    hide FieldsOf, CarriedBy, DocOf;
    DocsAfterAWrite(before, edit);
  }

  ghost predicate BlanksStay(store: Store, name: TypeName, declared: Declared) {
    forall h :: h in store.things ==> NoBlankMoves(store.things[h].writes, store.types, name, declared)
  }

  lemma ARepeatedDeclarationChangesNothing(before: Store, name: TypeName, declared: Declared)
    requires name in before.types && before.types[name] == declared
    ensures Made(before, DeclareType(name, declared)) == before
    ensures BlanksStay(before, name, declared)
  {
    assert before.types[name := declared] == before.types;
  }

  lemma ADeclarationTakenIn(before: Store, name: TypeName, declared: Declared)
    requires !ChangesARead(before.types, name, declared, HeldKeys(Load(before).docs))
    ensures
      var after := Made(before, DeclareType(name, declared));
      var patched := Load(before).(types := before.types[name := declared]);
      patched == Load(after) <==> BlanksStay(before, name, declared)
  {
    hide FieldsOf, CarriedBy, ChangesARead, NoBlankMoves, StandingOf;
    var after := Made(before, DeclareType(name, declared));
    var holds := HeldKeys(Load(before).docs);
    forall h | h in before.things
      ensures
        var writes := before.things[h].writes;
        FieldsOf(writes, before.types) == FieldsOf(writes, after.types) <==> NoBlankMoves(writes, before.types, name, declared)
    {
      var doc := Load(before).docs[h];
      assert HoldsTheKeysOf(holds, before.things[h].writes, before.types) by {
        assert forall key :: key in doc.fields || key in doc.carried ==> key in holds;
      }
      AThingReadsTheSame(before.things[h].writes, before.types, name, declared, holds);
    }
    if BlanksStay(before, name, declared) {
      assert DocsOf(after) == DocsOf(before);
    }
    if Load(before).(types := after.types) == Load(after) {
      forall h | h in before.things
        ensures FieldsOf(before.things[h].writes, before.types) == FieldsOf(before.things[h].writes, after.types)
      {
        assert DocsOf(before)[h] == DocsOf(after)[h];
      }
    }
  }

  /** A declaration under which no blanked key moves moves no standing blank. */
  lemma BlankedKeysThatStay(store: Store, name: TypeName, declared: Declared)
    requires forall h, w :: (h in store.things && w in store.things[h].writes && w.value == Some(Blank)
                             ==> !ListMoves(store.types, name, declared, w.key))
    ensures BlanksStay(store, name, declared)
  {
    hide FoldOf, ListMoves, BlankStands;
    forall h, key | h in store.things && BlankStands(store.things[h].writes, key, FoldOf(store.types, key))
      ensures !ListMoves(store.types, name, declared, key)
    {
      AStandingBlankWasWritten(store.things[h].writes, key, FoldOf(store.types, key));
    }
  }

  lemma AStandingBlankWasWritten(writes: seq<Write>, key: Key, folds: Folds)
    requires BlankStands(writes, key, folds)
    ensures exists w :: w in writes && w.key == key && w.value == Some(Blank)
  {
    if folds.Newest? {
      TheLastWriteIsItsRecords(writes, key);
    } else if forall w :: w in writes && w.key == key ==> w.value != Some(Blank) {
      WithoutABlankOneRun(writes, key);
    }
  }

  lemma {:induction false} WithoutABlankOneRun(writes: seq<Write>, key: Key)
    requires forall w :: w in writes && w.key == key ==> w.value != Some(Blank)
    ensures RunOf(writes, key, true) == RunOf(writes, key, false)
  {
    if writes != [] {
      assert writes[|writes| - 1] in writes && forall w :: w in writes[..|writes| - 1] ==> w in writes;
      WithoutABlankOneRun(writes[..|writes| - 1], key);
    }
  }

  // ---- Over a whole service ----

  datatype Step =
    | Fills(loads: bool)
    | Puts(edit: RowEdit, how: How, first: Fence, after: Fence, loads: bool)
    | Declares(name: TypeName, declared: Declared, how: How, first: Fence, after: Fence, loads: bool)
    | SaysKind(name: TypeName, declared: Declared, how: How, first: Fence, after: Fence, loads: bool)

  function AfterStep(half: Half, step: Step): Half {
    match step
    case Fills(_) => half
    case Puts(edit, how, first, after, _) => Attempted(half, edit, how, first, after)
    case Declares(name, declared, how, first, after, _) => Attempted(half, DeclareType(name, declared), how, first, after)
    case SaysKind(name, declared, how, first, after, _) => Attempted(half, DeclareKind(name, declared), how, first, after)
  }

  function AfterSteps(half: Half, steps: seq<Step>): Half {
    if steps == [] then half else AfterStep(AfterSteps(half, steps[..|steps| - 1]), steps[|steps| - 1])
  }

  /** A declaration that lands moves no key between list and no list over a blank that stands in the store it meets. */
  ghost predicate MovesNoBlank(half: Half, step: Step) {
    step.Declares? && Lands(half, DeclareType(step.name, step.declared), step.how, step.first)
    ==> BlanksStay(Met(half, step.first).store, step.name, step.declared)
  }

  ghost predicate Calm(half: Half, steps: seq<Step>) {
    forall i :: 0 <= i < |steps| ==> MovesNoBlank(AfterSteps(half, steps[..i]), steps[i])
  }

  lemma OneMoreStep(half: Half, steps: seq<Step>, i: nat)
    requires i < |steps|
    ensures AfterSteps(half, steps[..i + 1]) == AfterStep(AfterSteps(half, steps[..i]), steps[i])
    ensures Calm(half, steps[..i + 1]) ==> Calm(half, steps[..i]) && MovesNoBlank(AfterSteps(half, steps[..i]), steps[i])
  {
    hide AfterStep, MovesNoBlank;
    var more := steps[..i + 1];
    assert more[..i] == steps[..i] && more[i] == steps[i];
    if Calm(half, more) {
      assert MovesNoBlank(AfterSteps(half, more[..i]), more[i]);
      forall k | 0 <= k < i
        ensures MovesNoBlank(AfterSteps(half, steps[..i][..k]), steps[..i][k])
      {
        assert more[..k] == steps[..i][..k] && MovesNoBlank(AfterSteps(half, more[..k]), more[k]);
      }
    }
  }

  method Perform(folded: Folded, step: Step) returns (done: bool)
    requires folded.Valid()
    modifies folded
    ensures folded.Valid() && folded.Extends(old(folded.seen)) && (old(folded.wanted) ==> folded.wanted)
    ensures folded.Now() == AfterStep(old(folded.Now()), step)
    ensures old(folded.Right()) && old(folded.wanted) && MovesNoBlank(old(folded.Now()), step) ==> folded.Right()
  {
    hide Load, BlanksStay, Attempted, Met, Accepts;
    match step {
      case Fills(loads) => done := folded.Rebuild(loads);
      case Puts(edit, how, first, after, loads) =>
        var answer, before := folded.Write(edit, how, first, after, loads, true);
        done := answer.Done?;
      case Declares(name, declared, how, first, after, loads) =>
        var answer, patched, before := folded.Declare(name, declared, how, first, after, loads);
        done := answer.Done?;
      case SaysKind(name, declared, how, first, after, loads) =>
        var answer, before := folded.SayKind(name, declared, how, first, after, loads);
        done := answer.Done?;
    }
  }

  method Run(folded: Folded, steps: seq<Step>)
    requires folded.Valid()
    modifies folded
    ensures folded.Valid() && folded.Extends(old(folded.seen)) && (old(folded.wanted) ==> folded.wanted)
    ensures folded.Now() == AfterSteps(old(folded.Now()), steps)
    ensures old(folded.Right()) && old(folded.wanted) && Calm(old(folded.Now()), steps) ==> folded.Right()
  {
    hide AfterStep, MovesNoBlank, Calm;
    ghost var half := folded.Now();
    for i := 0 to |steps|
      invariant folded.Valid() && folded.Extends(old(folded.seen)) && (old(folded.wanted) ==> folded.wanted)
      invariant folded.Now() == AfterSteps(half, steps[..i])
      invariant old(folded.Right()) && old(folded.wanted) && Calm(half, steps[..i]) ==> folded.Right()
    {
      OneMoreStep(half, steps, i);
      var done := Perform(folded, steps[i]);
    }
    assert steps[..|steps|] == steps;
  }

  /**
   **Every run.** An image asked for before the first write is at every moment
   gone or a full load, through every failed read, lost answer and failed fence, as
   long as no declaration moves a key between list and no list over a blank that
   stands in the store it meets.
   */
  method Serve(folded: Folded, steps: seq<Step>, loads: bool)
    requires folded.Valid() && folded.Right() && (folded.wanted || !folded.uncertain)
    modifies folded
    ensures folded.Valid() && folded.wanted && folded.Extends(old(folded.seen))
    ensures folded.Now() == AfterSteps(old(folded.Now()), steps)
    ensures Calm(old(folded.Now()), steps) ==> folded.Right()
  {
    hide Load, Calm, AfterSteps;
    var ok := folded.Rebuild(loads);
    Run(folded, steps);
  }

  /**
   **Two equal change signals, with any run between them, mean that the image never
   changed in between**: no image was held in that time but the one held before.
   */
  method SignalTwice(folded: Folded, steps: seq<Step>) returns (first: Option<nat>, second: Option<nat>)
    requires folded.Valid()
    modifies folded
    ensures folded.Valid() && folded.Now() == AfterSteps(old(folded.Now()), steps)
    ensures first.Some? <==> old(folded.image).Some?
    ensures first.Some? && first == second ==> folded.image == old(folded.image) && folded.seen == old(folded.seen)
  {
    hide AfterSteps;
    first := folded.Signal();
    Run(folded, steps);
    second := folded.Signal();
    if first.Some? && first == second {
      assert forall g: nat :: g in folded.seen <==> g in old(folded.seen);
    }
  }

  /**
   The other half of the condition on `Write`: a write of unknown outcome before
   the first rebuild loads an image nobody asked for, and the next write passes it by.
   */
  method AnEarlyRecoveryGoesStale() returns (folded: Folded)
    ensures folded.Valid() && !folded.uncertain && !folded.wanted && folded.image.Some? && !folded.Right()
  {
    folded := new Folded(Store(map[], map[], {}));
    var thing := Thing(0, [], [], {});
    var fine := Fence(true, false, true);
    var answer, before := folded.Write(PutThing(1, thing, {}), Loses, fine, fine, true, true);
    answer, before := folded.Write(PutThing(1, thing, {}), Writes, fine, fine, true, true);
    assert 1 in ListingOf(folded.store) && 1 !in ListingOf(before);
  }
}
