/** The list of finished sessions, newest first and capped
    (src/SpeechToText.js:39-45, 179-183). Writing it to local storage is not
    part of this model. */
module History {
  import Seqs
  import Terms

  /** One finished session. `id` and `timestamp` are the clock readings
      taken when the entry was made. */
  datatype Entry = Entry(id: int, text: string, terms: Terms.Terms, language: string, timestamp: string)

  /** The most entries the history keeps. */
  const Cap: nat := 50

  /** `saveToHistory`: the new entry goes first and the older entries follow,
      dropping the oldest ones so that at most `Cap` remain. */
  function Insert(h: seq<Entry>, e: Entry): (r: seq<Entry>)
    ensures 0 < |r| <= Cap
    ensures |r| == Seqs.Min(|h| + 1, Cap)
    ensures r[0] == e
    ensures r[1..] <= h
  {
    [e] + h[..Seqs.Min(|h|, Cap - 1)]
  }

  /** Inserting into a full history evicts exactly its oldest entry. */
  lemma InsertIntoFullEvictsOldest(h: seq<Entry>, e: Entry)
    requires |h| == Cap
    ensures Insert(h, e) == [e] + h[..Cap - 1]
    ensures multiset(Insert(h, e)) == multiset(h) - multiset{h[Cap - 1]} + multiset{e}
  {
    var r := Insert(h, e);
    assert r[1..] == h[..Cap - 1];
    assert r == [e] + r[1..];
    assert h == h[..Cap - 1] + [h[Cap - 1]];
  }

  /** Inserting below the cap loses nothing. */
  lemma InsertBelowCapKeepsAll(h: seq<Entry>, e: Entry)
    requires |h| < Cap
    ensures Insert(h, e) == [e] + h
  {
    var r := Insert(h, e);
    assert r[1..] == h;
    assert r == [e] + r[1..];
  }

  /** Inserting the entries `es` one after another, first to last. */
  function InsertAll(h: seq<Entry>, es: seq<Entry>): seq<Entry>
    decreases |es|
  {
    if es == [] then h else InsertAll(Insert(h, es[0]), es[1..])
  }

  /** The history after any series of inserts is the newest `Cap` entries of
      the inserted ones (latest first) followed by the old history: the
      history is a bounded newest-first log. */
  lemma {:induction false} InsertAllIsNewestFirst(h: seq<Entry>, es: seq<Entry>)
    requires |h| <= Cap
    ensures InsertAll(h, es) == Seqs.Take(Seqs.Reverse(es) + h, Cap)
    decreases |es|
  {
    if es == [] {
      assert Seqs.Reverse(es) + h == h;
    } else {
      var h' := Insert(h, es[0]);
      InsertAllIsNewestFirst(h', es[1..]);
      assert h' == Seqs.Take([es[0]] + h, Cap);
      Seqs.TakeOfTake(Seqs.Reverse(es[1..]), [es[0]] + h, Cap);
      assert Seqs.Reverse(es[1..]) + ([es[0]] + h) == Seqs.Reverse(es) + h;
    }
  }

  /** The filter test of `handleDeleteHistory`. */
  function NotId(id: int): Entry -> bool {
    (e: Entry) => e.id != id
  }

  /** `handleDeleteHistory`: removes every entry carrying the id and keeps the
      others, each as often as before and in their order. */
  function Delete(h: seq<Entry>, id: int): (r: seq<Entry>)
    ensures |r| <= |h|
    ensures forall i | 0 <= i < |r| :: r[i].id != id
    ensures forall e: Entry | e.id != id :: multiset(r)[e] == multiset(h)[e]
    ensures Seqs.IsSubsequence(r, h)
  {
    var keep := NotId(id);
    Seqs.FilterCounts(keep, h);
    Seqs.FilterIsSubsequence(keep, h);
    Seqs.Filter(keep, h)
  }

  /** Deleting an entry just inserted under a fresh id gives back the history
      it was inserted into, when that history was below the cap. */
  lemma DeleteUndoesInsert(h: seq<Entry>, e: Entry)
    requires |h| < Cap
    requires forall i | 0 <= i < |h| :: h[i].id != e.id
    ensures Delete(Insert(h, e), e.id) == h
  {
    var keep := NotId(e.id);
    InsertBelowCapKeepsAll(h, e);
    Seqs.FilterAppend(keep, [e], h);
    Seqs.FilterKeepsAll(keep, h);
    assert Seqs.Filter(keep, [e]) == [];
  }
}
