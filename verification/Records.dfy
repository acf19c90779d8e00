/** The records of the two scanned stores, and the postings each is written as. */
module Records {
  import opened Wrappers
  import opened Postings

  /** The entity a document declares. An archived one has no posting of its own. */
  datatype Thing = Thing(id: string, browsable: bool, labels: string)

  datatype Record =
    | DocRecord(docId: string, entity: Option<Thing>, facts: seq<string>, prose: string)
    | MessageRecord(messageId: string, envelope: string)

  type Doc = r: Record | r.DocRecord? witness DocRecord("doc", None, [], "")

  type Message = r: Record | r.MessageRecord? witness MessageRecord("message", "")

  function KeyTerm(r: Record): Term {
    if r.DocRecord? then DocTerm(r.docId) else MessageTerm(r.messageId)
  }

  predicate Blank(text: string) {
    forall c :: c in text ==> c in " \t\r\n"
  }

  function FactPostings(docId: string, facts: seq<string>): (ps: seq<Posting>)
    ensures |ps| == |facts|
    ensures forall i :: 0 <= i < |ps| ==> ps[i] == DocPosting(docId, facts[i])
  {
    seq(|facts|, i requires 0 <= i < |facts| => DocPosting(docId, facts[i]))
  }

  /** The postings of one record: its entity, each fact, its prose; or the message. */
  function Written(r: Record): (ps: seq<Posting>)
    ensures forall p :: p in ps ==> KeyOf(p) == KeyTerm(r)
  {
    match r
    case DocRecord(id, entity, facts, prose) =>
      (if entity.Some? && entity.value.browsable then [DocPosting(id, entity.value.labels)] else [])
      + FactPostings(id, facts)
      + (if Blank(prose) then [] else [DocPosting(id, prose)])
    case MessageRecord(id, envelope) => [MessagePosting(id, envelope)]
  }

  /**
   **What a document is written as**: its entity's labels unless it is archived, every fact
   once, and its prose unless there is nothing in it, all under the document's own id.
   */
  lemma WhatADocumentIsWrittenAs(id: string, entity: Option<Thing>, facts: seq<string>, prose: string) returns (told: seq<Posting>)
    ensures |told| == |facts| && forall i :: 0 <= i < |facts| ==> told[i] == DocPosting(id, facts[i])
    ensures
      var labels := if entity.Some? && entity.value.browsable then [DocPosting(id, entity.value.labels)] else [];
      var text := if exists c :: c in prose && c !in {' ', '\t', '\r', '\n'} then [DocPosting(id, prose)] else [];
      Written(DocRecord(id, entity, facts, prose)) == labels + told + text
  {
    assert forall c :: c in " \t\r\n" <==> c in {' ', '\t', '\r', '\n'};
    told := FactPostings(id, facts);
  }

  /** A full rebuild: every record written into an empty index. */
  function Rebuild(records: seq<Record>): seq<Posting>
    decreases |records|
  {
    if records == [] then []
    else Rebuild(records[..|records| - 1]) + Written(records[|records| - 1])
  }

  ghost predicate DistinctKeys(records: seq<Record>) {
    forall i, j :: 0 <= i < j < |records| ==> KeyTerm(records[i]) != KeyTerm(records[j])
  }

  ghost predicate HasKey(records: seq<Record>, t: Term) {
    exists r :: r in records && KeyTerm(r) == t
  }

  /** The held record under a key; the last one wins, as in a collected map. */
  function HeldUnder(held: seq<Record>, t: Term): Option<Record>
    decreases |held|
  {
    if held == [] then None
    else if KeyTerm(held[|held| - 1]) == t then Some(held[|held| - 1])
    else HeldUnder(held[..|held| - 1], t)
  }

  lemma KeysStayDistinct(records: seq<Record>, some: seq<Record>)
    requires records != [] && forall x :: x in some ==> x in records[..|records| - 1]
    ensures DistinctKeys(records) ==> DistinctKeys(records[..|records| - 1])
    ensures DistinctKeys(records) && DistinctKeys(some) ==> DistinctKeys(some + [records[|records| - 1]])
  {
    var init, last := records[..|records| - 1], records[|records| - 1];
    if DistinctKeys(records) {
      forall x | x in some
        ensures KeyTerm(x) != KeyTerm(last)
      {
        var i :| 0 <= i < |init| && init[i] == x;
        assert records[i] == x;
      }
    }
  }

  /** The arriving records that the mirror does not hold as they are. */
  function Changed(arriving: seq<Record>, held: seq<Record>): (r: seq<Record>)
    ensures forall x :: x in r <==> x in arriving && HeldUnder(held, KeyTerm(x)) != Some(x)
    ensures DistinctKeys(arriving) ==> DistinctKeys(r)
    decreases |arriving|
  {
    if arriving == [] then []
    else
      var init, last := arriving[..|arriving| - 1], arriving[|arriving| - 1];
      assert arriving == init + [last];
      var rest := Changed(init, held);
      KeysStayDistinct(arriving, rest);
      if HeldUnder(held, KeyTerm(last)) != Some(last) then rest + [last] else rest
  }

  /** The keys of the mirror that no arriving record has. */
  function Gone(arriving: seq<Record>, held: seq<Record>): (r: seq<Term>)
    ensures forall t :: t in r <==> HasKey(held, t) && !HasKey(arriving, t)
    decreases |held|
  {
    if held == [] then []
    else
      var init, last := held[..|held| - 1], held[|held| - 1];
      assert held == init + [last];
      assert forall t :: HasKey(held, t) <==> HasKey(init, t) || t == KeyTerm(last);
      Gone(arriving, init)
      + (if exists i :: 0 <= i < |arriving| && KeyTerm(arriving[i]) == KeyTerm(last) then [] else [KeyTerm(last)])
  }

  lemma {:induction false} HeldUnderIsHeld(held: seq<Record>, r: Record)
    requires DistinctKeys(held)
    ensures HeldUnder(held, KeyTerm(r)) == Some(r) <==> r in held
    decreases |held|
  {
    if held != [] {
      var init, last := held[..|held| - 1], held[|held| - 1];
      assert held == init + [last];
      HeldUnderIsHeld(init, r);
    }
  }

  /**
   **What the comparison finds**: nothing to write and nothing to evict exactly
   when the scan and the mirror hold the same records.
   */
  lemma NothingChangedIsTheSame(arriving: seq<Record>, held: seq<Record>)
    requires DistinctKeys(arriving) && DistinctKeys(held)
    ensures Changed(arriving, held) == [] && Gone(arriving, held) == [] <==>
      (forall r :: r in arriving <==> r in held)
  {
    forall r
      ensures HeldUnder(held, KeyTerm(r)) == Some(r) <==> r in held
    {
      HeldUnderIsHeld(held, r);
    }
    if forall r :: r in arriving <==> r in held {
      if Changed(arriving, held) != [] {
        assert Changed(arriving, held)[0] in Changed(arriving, held);
      }
      if Gone(arriving, held) != [] {
        assert Gone(arriving, held)[0] in Gone(arriving, held);
      }
    }
    if Changed(arriving, held) == [] && Gone(arriving, held) == [] {
      forall r | r in held
        ensures r in arriving
      {
        assert HasKey(held, KeyTerm(r)) && KeyTerm(r) !in Gone(arriving, held);
        var x :| x in arriving && KeyTerm(x) == KeyTerm(r);
        assert x !in Changed(arriving, held);
        assert x in held;
      }
    }
  }

  lemma {:induction false} RebuildNone(records: seq<Record>, t: Term)
    requires !HasKey(records, t) && !t.RunTerm?
    ensures Matching(Rebuild(records), t) == []
    decreases |records|
  {
    if records != [] {
      var init, last := records[..|records| - 1], records[|records| - 1];
      assert records == init + [last];
      assert !HasKey(init, t);
      RebuildNone(init, t);
      MatchingConcat(Rebuild(init), Written(last), t);
      MatchingOwn(Written(last), KeyTerm(last), t);
    }
  }

  lemma {:induction false} RebuildOne(records: seq<Record>, r: Record)
    requires DistinctKeys(records) && r in records
    ensures Matching(Rebuild(records), KeyTerm(r)) == Written(r)
    decreases |records|
  {
    hide Matching, Written;
    var init, last := records[..|records| - 1], records[|records| - 1];
    var t := KeyTerm(r);
    assert records == init + [last];
    MatchingConcat(Rebuild(init), Written(last), t);
    MatchingOwn(Written(last), KeyTerm(last), t);
    if r == last {
      RebuildNone(init, t);
    } else {
      RebuildOne(init, r);
    }
  }

  lemma RebuildOf(records: seq<Record>, t: Term)
    requires DistinctKeys(records) && !t.RunTerm?
    ensures forall r :: r in records && KeyTerm(r) == t ==> Matching(Rebuild(records), t) == Written(r)
    ensures !HasKey(records, t) ==> Matching(Rebuild(records), t) == []
  {
    hide Matching, Written, Rebuild, DistinctKeys;
    if r :| r in records && KeyTerm(r) == t {
      forall x | x in records && KeyTerm(x) == t
        ensures Matching(Rebuild(records), t) == Written(x)
      {
        RebuildOne(records, x);
      }
    } else {
      RebuildNone(records, t);
    }
  }

  lemma {:induction false} MatchingOwn(ps: seq<Posting>, key: Term, t: Term)
    requires forall p :: p in ps ==> KeyOf(p) == key
    requires !t.RunTerm?
    ensures Matching(ps, t) == if t == key then ps else []
    decreases |ps|
  {
    if ps != [] {
      var init, last := ps[..|ps| - 1], ps[|ps| - 1];
      assert ps == init + [last];
      MatchingOwn(init, key, t);
    }
  }

  /** The index after the changed and gone records were deleted and rewritten. */
  ghost predicate Rewritten(before: seq<Posting>, after: seq<Posting>, evict: seq<Term>, rewrite: seq<Record>) {
    forall t: Term :: !t.RunTerm? ==>
      Matching(after, t)
      == (if t in evict || HasKey(rewrite, t) then [] else Matching(before, t)) + Matching(Rebuild(rewrite), t)
  }

  /** The index holds, under these keys, what a rebuild of the records holds. */
  ghost predicate Mirrors(index: seq<Posting>, records: seq<Record>, t: Term) {
    Matching(index, t) == Matching(Rebuild(records), t)
  }

  /**
   **Incremental equals rebuild**: writing only the differences leaves under
   every key what a rebuild of the whole scan would write there.
   */
  lemma DifferencesRebuild(before: seq<Posting>, after: seq<Posting>, held: seq<Record>, arriving: seq<Record>, t: Term)
    requires DistinctKeys(held) && DistinctKeys(arriving) && !t.RunTerm?
    requires Rewritten(before, after, Gone(arriving, held), Changed(arriving, held))
    requires Mirrors(before, held, t)
    ensures Mirrors(after, arriving, t)
  {
    hide Changed, Gone, Matching, Rebuild, HeldUnder, Written;
    var rewrite := Changed(arriving, held);
    RebuildOf(held, t);
    RebuildOf(arriving, t);
    RebuildOf(rewrite, t);
    if r :| r in arriving && KeyTerm(r) == t {
      HeldUnderIsHeld(held, r);
      assert t !in Gone(arriving, held);
      if r in rewrite {
        assert Matching(Rebuild(rewrite), t) == Written(r);
      } else {
        assert !HasKey(rewrite, t) by {
          assert forall x :: x in rewrite && KeyTerm(x) == t ==> x == r;
        }
        assert Matching(before, t) == Written(r);
      }
    } else {
      assert !HasKey(arriving, t) && !HasKey(rewrite, t);
      assert t in Gone(arriving, held) <==> HasKey(held, t);
    }
  }

  // ---- Two ingests that compared with one mirror ----

  /** The differences name this key. */
  ghost predicate Touches(arriving: seq<Record>, held: seq<Record>, t: Term) {
    t in Gone(arriving, held) || HasKey(Changed(arriving, held), t)
  }

  lemma WhatTheDifferencesWrite(arriving: seq<Record>, held: seq<Record>, t: Term)
    requires DistinctKeys(held) && DistinctKeys(arriving) && !t.RunTerm?
    ensures
      if Touches(arriving, held, t) then Matching(Rebuild(arriving), t) == Matching(Rebuild(Changed(arriving, held)), t)
      else Matching(Rebuild(arriving), t) == Matching(Rebuild(held), t) && Matching(Rebuild(Changed(arriving, held)), t) == []
  {
    hide Changed, Gone, Matching, Rebuild, HeldUnder, Written;
    var rewrite := Changed(arriving, held);
    RebuildOf(held, t);
    RebuildOf(arriving, t);
    RebuildOf(rewrite, t);
    if r :| r in arriving && KeyTerm(r) == t {
      HeldUnderIsHeld(held, r);
      assert t !in Gone(arriving, held);
      assert forall x :: x in rewrite && KeyTerm(x) == t ==> x == r;
    } else {
      assert !HasKey(arriving, t) && !HasKey(rewrite, t);
      assert t in Gone(arriving, held) <==> HasKey(held, t);
    }
  }

  /**
   **Exactly when two overlapping ingests leave a rebuild.** Both compared with the
   mirror `held`, `first` wrote before `second`: under a key the index is then what
   `second` says if and only if `second` wrote that key, or `first` changed nothing there.
   */
  lemma OverlappingIngests(before: seq<Posting>, mid: seq<Posting>, after: seq<Posting>,
                           held: seq<Record>, first: seq<Record>, second: seq<Record>, t: Term)
    requires DistinctKeys(held) && DistinctKeys(first) && DistinctKeys(second) && !t.RunTerm?
    requires Rewritten(before, mid, Gone(first, held), Changed(first, held)) && Mirrors(before, held, t)
    requires Rewritten(mid, after, Gone(second, held), Changed(second, held))
    ensures Mirrors(after, second, t) <==> Touches(second, held, t) || Matching(Rebuild(first), t) == Matching(Rebuild(held), t)
  {
    hide Matching, Rebuild, Gone, Changed, DistinctKeys, HasKey, Rewritten, Touches;
    DifferencesRebuild(before, mid, held, first, t);
    WhatTheDifferencesWrite(second, held, t);
    RewrittenUnder(mid, after, held, second, t);
  }

  lemma RewrittenUnder(before: seq<Posting>, after: seq<Posting>, held: seq<Record>, arriving: seq<Record>, t: Term)
    requires Rewritten(before, after, Gone(arriving, held), Changed(arriving, held)) && !t.RunTerm?
    ensures
      var wrote := Matching(Rebuild(Changed(arriving, held)), t);
      Matching(after, t) == if Touches(arriving, held, t) then wrote else Matching(before, t) + wrote
  {
    hide Matching, Rebuild, Gone, Changed;
  }

  /**
   **An older scan leaves what a newer one wrote**: it equals the mirror both
   compared with, so it writes nothing and the message keeps the newer envelope.
   */
  lemma AnOlderScanLeavesTheNewer(id: string, was: string, newer: string)
    requires was != newer
    ensures
      var held, first := [MessageRecord(id, was)], [MessageRecord(id, newer)];
      var before, after := [MessagePosting(id, was)], [MessagePosting(id, newer)];
      && Mirrors(before, held, MessageTerm(id))
      && Rewritten(before, after, Gone(first, held), Changed(first, held))
      && Rewritten(after, after, Gone(held, held), Changed(held, held))
      && Changed(held, held) == [] && !Mirrors(after, held, MessageTerm(id))
  {
    hide Matching, Rebuild, Changed, Gone, HasKey;
    OneMessage(id, was);
    OneMessage(id, newer);
    ComparedWithOne(id, was, newer);
    ComparedWithOne(id, was, was);
    forall t: Term | !t.RunTerm?
      ensures !HasKey([], t) && Matching(Rebuild([]), t) == []
    {
      NoKeys(t);
      RebuildNone([], t);
    }
  }

  lemma OneMessage(id: string, text: string)
    ensures forall t: Term :: !t.RunTerm? ==>
      var there := if t == MessageTerm(id) then [MessagePosting(id, text)] else [];
      Matching(Rebuild([MessageRecord(id, text)]), t) == there && Matching([MessagePosting(id, text)], t) == there
    ensures forall t: Term :: HasKey([MessageRecord(id, text)], t) <==> t == MessageTerm(id)
  {
    var m := MessageRecord(id, text);
    assert [m][..0] == [] && Rebuild([]) == [];
    assert Rebuild([m]) == [MessagePosting(id, text)];
    assert m in [m];
  }

  lemma NoKeys(t: Term)
    ensures !HasKey([], t)
  {
  }

  lemma ComparedWithOne(id: string, was: string, text: string)
    ensures
      var held, arriving := [MessageRecord(id, was)], [MessageRecord(id, text)];
      Gone(arriving, held) == [] && Changed(arriving, held) == if text == was then [] else arriving
  {
    var held, arriving := [MessageRecord(id, was)], [MessageRecord(id, text)];
    assert held[..0] == [] && arriving[..0] == [];
    assert arriving[0] == MessageRecord(id, text) && HeldUnder(held, MessageTerm(id)) == Some(held[0]);
    assert Changed([], held) == [] && Gone(arriving, []) == [];
  }

  // ---- What an overlap leaves for the ingests that follow ----

  /** Each ingest alone: compared with the scan before it, which it left as the mirror. */
  ghost predicate Alone(indexes: seq<seq<Posting>>, scans: seq<seq<Record>>) {
    && |indexes| == |scans| > 0
    && (forall k :: 0 <= k < |scans| ==> DistinctKeys(scans[k]))
    && forall k :: 0 <= k < |scans| - 1 ==>
         Rewritten(indexes[k], indexes[k + 1], Gone(scans[k + 1], scans[k]), Changed(scans[k + 1], scans[k]))
  }

  lemma StaysAsItWas(before: seq<Posting>, after: seq<Posting>, held: seq<Record>, arriving: seq<Record>, t: Term)
    requires DistinctKeys(held) && DistinctKeys(arriving) && !t.RunTerm?
    requires Rewritten(before, after, Gone(arriving, held), Changed(arriving, held))
    ensures Mirrors(after, arriving, t) <==> Mirrors(before, held, t) || Touches(arriving, held, t)
  {
    hide Matching, Rebuild, Gone, Changed, DistinctKeys, Rewritten, Touches;
    WhatTheDifferencesWrite(arriving, held, t);
    RewrittenUnder(before, after, held, arriving, t);
  }

  /**
   **What an overlap damaged stays damaged until an ingest writes or drops the key.**
   From any index and whichever scan was left as the mirror, ingests that follow one
   another are right under a key if and only if the first index was, or one of them touched it.
   */
  lemma {:induction false} DamageLasts(indexes: seq<seq<Posting>>, scans: seq<seq<Record>>, t: Term)
    requires Alone(indexes, scans) && !t.RunTerm?
    ensures Mirrors(indexes[|indexes| - 1], scans[|scans| - 1], t) <==>
      || Mirrors(indexes[0], scans[0], t)
      || exists k :: 0 <= k < |scans| - 1 && Touches(scans[k + 1], scans[k], t)
    decreases |scans|
  {
    hide Matching, Rebuild, Gone, Changed, DistinctKeys, Rewritten, Touches, Mirrors;
    var n := |scans| - 1;
    if n > 0 {
      DamageLasts(indexes[..n], scans[..n], t);
      assert forall k :: 0 <= k < n ==> scans[..n][k] == scans[k];
      StaysAsItWas(indexes[n - 1], indexes[n], scans[n - 1], scans[n], t);
    }
  }

  /** The mirror without a key, as `retain` leaves it. */
  function Retained(records: seq<Record>, t: Term): (r: seq<Record>)
    ensures forall x :: x in r <==> x in records && KeyTerm(x) != t
    ensures DistinctKeys(records) ==> DistinctKeys(r)
    decreases |records|
  {
    if records == [] then []
    else
      var init, last := records[..|records| - 1], records[|records| - 1];
      assert records == init + [last];
      var rest := Retained(init, t);
      KeysStayDistinct(records, rest);
      if KeyTerm(last) == t then rest else rest + [last]
  }

  lemma OneReplaced(before: seq<Posting>, after: seq<Posting>, held: seq<Record>, r: Record, t: Term)
    requires DistinctKeys(held) && !t.RunTerm?
    requires Rewritten(before, after, [], [r]) && Mirrors(before, held, t)
    ensures DistinctKeys(Retained(held, KeyTerm(r)) + [r])
    ensures Mirrors(after, Retained(held, KeyTerm(r)) + [r], t)
  {
    hide Matching, Rebuild, Written, Retained;
    var next := Retained(held, KeyTerm(r)) + [r];
    assert r in next && r in [r];
    RebuildOf(held, t);
    RebuildOf(next, t);
    RebuildOf([r], t);
    if x :| x in held && KeyTerm(x) == t && t != KeyTerm(r) {
      assert x in next;
    }
  }

  lemma OneEvicted(before: seq<Posting>, after: seq<Posting>, held: seq<Record>, key: Term, t: Term)
    requires DistinctKeys(held) && !t.RunTerm?
    requires Rewritten(before, after, [key], []) && Mirrors(before, held, t)
    ensures Mirrors(after, Retained(held, key), t)
  {
    hide Matching, Rebuild, Written, Retained, DistinctKeys;
    RebuildOf(held, t);
    RebuildOf(Retained(held, key), t);
    RebuildNone([], t);
    if x :| x in held && KeyTerm(x) == t && t != key {
      assert x in Retained(held, key);
    }
  }
}
