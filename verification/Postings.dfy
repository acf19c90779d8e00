/** The index as a list of postings, and what deleting by a term does to it. */
module Postings {
  import opened Wrappers

  /** A posting is one document of the full-text index. */
  datatype Posting =
    | DocPosting(docId: string, text: string)
    | MessagePosting(messageId: string, text: string)
    | EntryPosting(run: string, owner: string, focus: string, entryId: string, text: string)

  /** A field and its exact value. Every posting carries one key; an entry also carries its run. */
  datatype Term = DocTerm(id: string) | MessageTerm(id: string) | EntryTerm(id: string) | RunTerm(id: string)

  function KeyOf(p: Posting): Term {
    match p
    case DocPosting(id, _) => DocTerm(id)
    case MessagePosting(id, _) => MessageTerm(id)
    case EntryPosting(_, _, _, id, _) => EntryTerm(id)
  }

  predicate Carries(p: Posting, t: Term) {
    KeyOf(p) == t || (p.EntryPosting? && t == RunTerm(p.run))
  }

  function Matching(index: seq<Posting>, t: Term): seq<Posting>
    decreases |index|
  {
    if index == [] then []
    else
      var last := index[|index| - 1];
      Matching(index[..|index| - 1], t) + (if Carries(last, t) then [last] else [])
  }

  function Without(index: seq<Posting>, t: Term): seq<Posting>
    decreases |index|
  {
    if index == [] then []
    else
      var last := index[|index| - 1];
      Without(index[..|index| - 1], t) + (if Carries(last, t) then [] else [last])
  }

  /** An operation staged in the index writer, not committed yet. */
  datatype Staged = Delete(term: Term) | Add(posting: Posting)

  function ApplyStaged(index: seq<Posting>, op: Staged): seq<Posting> {
    match op
    case Delete(term) => Without(index, term)
    case Add(posting) => index + [posting]
  }

  /** What a commit of the staged operations leaves. */
  function Effect(index: seq<Posting>, staged: seq<Staged>): seq<Posting>
    decreases |staged|
  {
    if staged == [] then index
    else ApplyStaged(Effect(index, staged[..|staged| - 1]), staged[|staged| - 1])
  }

  /** The two indexes hold the same postings under every key. */
  ghost predicate SamePostings(a: seq<Posting>, b: seq<Posting>) {
    forall t: Term :: !t.RunTerm? ==> Matching(a, t) == Matching(b, t)
  }

  lemma EffectPush(index: seq<Posting>, staged: seq<Staged>, op: Staged)
    ensures Effect(index, staged + [op]) == ApplyStaged(Effect(index, staged), op)
  {
    assert (staged + [op])[..|staged|] == staged;
  }

  lemma {:induction false} EffectConcat(index: seq<Posting>, a: seq<Staged>, b: seq<Staged>)
    ensures Effect(index, a + b) == Effect(Effect(index, a), b)
    decreases |b|
  {
    if b == [] {
      assert a + b == a;
    } else {
      var init, last := b[..|b| - 1], b[|b| - 1];
      EffectConcat(index, a, init);
      assert a + b == (a + init) + [last];
      EffectPush(index, a + init, last);
    }
  }

  lemma MatchingPush(index: seq<Posting>, p: Posting, t: Term)
    ensures Matching(index + [p], t) == Matching(index, t) + (if Carries(p, t) then [p] else [])
  {
    assert (index + [p])[..|index|] == index;
  }

  lemma {:induction false} MatchingConcat(a: seq<Posting>, b: seq<Posting>, t: Term)
    ensures Matching(a + b, t) == Matching(a, t) + Matching(b, t)
    decreases |b|
  {
    if b == [] {
      assert a + b == a;
    } else {
      var init, last := b[..|b| - 1], b[|b| - 1];
      MatchingConcat(a, init, t);
      assert a + b == (a + init) + [last];
      MatchingPush(a + init, last, t);
    }
  }

  lemma {:induction false} MatchingHas(index: seq<Posting>, t: Term)
    ensures forall p :: p in Matching(index, t) <==> p in index && Carries(p, t)
    decreases |index|
  {
    if index != [] {
      var init, last := index[..|index| - 1], index[|index| - 1];
      MatchingHas(init, t);
      assert index == init + [last];
    }
  }

  /** Deleting by a key removes its own postings and no others. */
  lemma {:induction false} WithoutKey(index: seq<Posting>, gone: Term, t: Term)
    requires !gone.RunTerm? && !t.RunTerm?
    ensures Matching(Without(index, gone), t) == if t == gone then [] else Matching(index, t)
    decreases |index|
  {
    if index != [] {
      var init, last := index[..|index| - 1], index[|index| - 1];
      WithoutKey(init, gone, t);
      if !Carries(last, gone) {
        MatchingPush(Without(init, gone), last, t);
      } else {
        assert Without(index, gone) == Without(init, gone);
      }
    }
  }

  predicate OfRun(p: Posting, run: string) { p.EntryPosting? && p.run == run }

  /** Deleting by a run removes a key's postings when they are that run's. */
  lemma {:induction false} WithoutRun(index: seq<Posting>, run: string, t: Term, mine: bool)
    requires !t.RunTerm?
    requires forall p :: p in Matching(index, t) ==> OfRun(p, run) == mine
    ensures Matching(Without(index, RunTerm(run)), t) == if mine then [] else Matching(index, t)
    decreases |index|
  {
    if index != [] {
      var init, last := index[..|index| - 1], index[|index| - 1];
      assert Matching(index, t) == Matching(init, t) + (if Carries(last, t) then [last] else []);
      WithoutRun(init, run, t, mine);
      if Carries(last, t) {
        assert last in Matching(index, t);
      }
      assert Carries(last, RunTerm(run)) <==> OfRun(last, run);
      if OfRun(last, run) {
        assert Without(index, RunTerm(run)) == Without(init, RunTerm(run));
      } else {
        MatchingPush(Without(init, RunTerm(run)), last, t);
      }
    }
  }

  lemma {:induction false} CountUnderKey(index: seq<Posting>, p: Posting)
    ensures multiset(index)[p] == multiset(Matching(index, KeyOf(p)))[p]
    decreases |index|
  {
    if index != [] {
      var init, last := index[..|index| - 1], index[|index| - 1];
      CountUnderKey(init, p);
      assert index == init + [last];
      if Carries(last, KeyOf(p)) {
        assert Matching(index, KeyOf(p)) == Matching(init, KeyOf(p)) + [last];
      } else {
        assert Matching(index, KeyOf(p)) == Matching(init, KeyOf(p));
        assert last != p;
      }
    }
  }

  /** **The same postings under every key are the same postings**, counted. */
  lemma SamePostingsAreTheSameBag(a: seq<Posting>, b: seq<Posting>)
    requires SamePostings(a, b)
    ensures multiset(a) == multiset(b)
  {
    forall p: Posting
      ensures multiset(a)[p] == multiset(b)[p]
    {
      CountUnderKey(a, p);
      CountUnderKey(b, p);
    }
  }
}
