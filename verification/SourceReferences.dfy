/** The numbers under which the client can ask for files, and what is remembered of translations. */
module SourceReferences {
  import opened Paths

  predicate IsReference(references: map<string, nat>, k: nat) {
    exists name <- references :: references[name] == k
  }

  /** Positive references are the numbers from 1 on, without gaps, and each belongs to a name. */
  ghost predicate NoGaps(references: map<string, nat>, sources: map<nat, string>, next: nat) {
    && next >= 1
    && (forall k: nat | 1 <= k < next :: IsReference(references, k))
    && (forall name <- references :: references[name] < next)
    && (forall k <- sources :: k == 0 || k < next)
  }

  lemma ReferNoGaps(m: Memo, f: string, name: string, isMapped: bool)
    requires NoGaps(m.references, m.sources, m.next)
    ensures var m' := Refer(m, f, name, isMapped); NoGaps(m'.references, m'.sources, m'.next)
  {
    var m' := Refer(m, f, name, isMapped);
    forall k: nat | 1 <= k < m'.next ensures IsReference(m'.references, k) {
      if k < m.next {
        assert IsReference(m.references, k);
        var n :| n in m.references && m.references[n] == k;
        assert n in m'.references && m'.references[n] == k;
      } else {
        assert name in m'.references && m'.references[name] == k;
      }
    }
  }

  lemma AskNoGaps(t: Translation, m: Memo, q: Query)
    requires NoGaps(m.references, m.sources, m.next)
    ensures var m' := Ask(t, m, q); NoGaps(m'.references, m'.sources, m'.next)
  {
    if q.ForClient? && q.filename !in m.toClient {
      var f := q.filename;
      ReferNoGaps(m.(toClient := m.toClient[f := t.toClient(f)]), f, t.toClient(f), t.isMapped(f));
    }
  }

  lemma {:induction false} AskAllNoGaps(t: Translation, m: Memo, queries: seq<Query>)
    requires NoGaps(m.references, m.sources, m.next)
    ensures var m' := AskAll(t, m, queries); NoGaps(m'.references, m'.sources, m'.next)
    decreases |queries|
  {
    if queries != [] {
      AskNoGaps(t, m, queries[0]);
      AskAllNoGaps(t, Ask(t, m, queries[0]), queries[1..]);
    }
  }

  /** References are given out from 1 on without gaps; a number that is no reference of any name leads
      to no file. */
  lemma ReferencesHaveNoGaps(env: Env, queries: seq<Query>, k: nat)
    requires k >= 1
    ensures var m := After(env, queries);
            && (k < m.next <==> IsReference(m.references, k))
            && (!IsReference(m.references, k) ==> SourceOf(m, k) == "")
  {
    AskAllNoGaps(TranslationOf(env), FRESH, queries);
  }

  lemma AskTwice(t: Translation, m: Memo, q: Query)
    ensures Ask(t, Ask(t, m, q), q) == Ask(t, m, q)
  {
  }

  lemma AskServerStores(t: Translation, m: Memo, f: string)
    ensures f !in m.toServer ==> t.key(f) in AskServer(t, m, f).toServer
    ensures f in AskClient(t, m, f).toClient
  {
  }

  /** A translation is remembered, one to the server under the name with the slashes of the client, and
      asking again changes nothing. */
  lemma AskingAgainChangesNothing(env: Env, queries: seq<Query>, f: string, q: Query)
    ensures var t, m := TranslationOf(env), After(env, queries);
            && f in AskClient(t, m, f).toClient
            && (f !in m.toServer ==> ToClientSep(env, f) in AskServer(t, m, f).toServer)
            && Ask(t, Ask(t, m, q), q) == Ask(t, m, q)
  {
    var t, m := TranslationOf(env), After(env, queries);
    AskTwice(t, m, q);
    AskServerStores(t, m, f);
    assert t.key(f) == ToClientSep(env, f);
  }
}
