/**
 * `ShowingsMonitor.poll`: one scrape-dedupe-save-notify cycle over a persistent set of seen
 * fingerprints. The store is the `seen` field; what the cycle does to the store and to the
 * notifiers is recorded, in order, in `log`.
 */
module Monitor {
  import opened Common
  import opened Rows
  import Scraper

  /** The observable actions of a poll, in the order they happen. */
  datatype Event =
    | Saved(fingerprint: string)                                     // `seenRepo.save(SeenShowing(fp))`
    | Notified(notifier: nat, batch: seq<ShowingRow>, failed: bool)  // `notifiers[notifier].notifyNewShowings(batch)`

  /** `showings.filter { !seenRepo.existsById(it.fingerprint()) }`, tested against the store as it was before any save. */
  function NewOnes(rows: seq<ShowingRow>, seen: set<string>): seq<ShowingRow>
  {
    if rows == [] then []
    else (if Fingerprint(rows[0]) in seen then [] else [rows[0]]) + NewOnes(rows[1..], seen)
  }

  function Fingerprints(rows: seq<ShowingRow>): set<string> {
    set r | r in rows :: Fingerprint(r)
  }

  /** The saves of a batch, one per row, in batch order (a repeated fingerprint is saved again). */
  function SaveEvents(batch: seq<ShowingRow>): seq<Event> {
    seq(|batch|, i requires 0 <= i < |batch| => Saved(Fingerprint(batch[i])))
  }

  /** The calls of the first `|failures|` notifiers on a batch, in list order, each with its outcome. */
  function NotifyEvents(batch: seq<ShowingRow>, failures: seq<bool>): seq<Event> {
    seq(|failures|, k requires 0 <= k < |failures| => Notified(k, batch, failures[k]))
  }

  /** Everything a poll that found a non-empty batch does: all saves, then all notifier calls. */
  function CycleEvents(batch: seq<ShowingRow>, failures: seq<bool>): seq<Event> {
    SaveEvents(batch) + NotifyEvents(batch, failures)
  }

  class ShowingsMonitor {
    /** The configured notifiers, identified by their position in this list. */
    const notifiers: seq<string>
    /** The fingerprints in the seen-showings store. */
    var seen: set<string>
    /** The saves and notifier calls made so far. */
    var log: seq<Event>

    constructor (notifiers: seq<string>, seen: set<string>)
      ensures this.notifiers == notifiers && this.seen == seen && log == []
    {
      this.notifiers := notifiers;
      this.seen := seen;
      log := [];
    }

    /**
     * One poll. `scraped` is what `fetchShowings` returned or threw; `failures[k]` says whether
     * notifier `k` throws. Nothing escapes: a failed scrape changes nothing, and a failing
     * notifier neither stops the later ones nor undoes the saves made before it.
     * Returns the batch of new rows.
     */
    method Poll(scraped: Result<seq<ShowingRow>, Scraper.ScrapeError>, failures: seq<bool>) returns (batch: seq<ShowingRow>)
      requires |failures| == |notifiers|
      modifies this
      ensures batch == if scraped.Ok? then NewOnes(scraped.value, old(seen)) else []
      ensures seen == old(seen) + if scraped.Ok? then Fingerprints(scraped.value) else {}
      ensures batch == [] ==> log == old(log)
      ensures batch != [] ==> log == old(log) + SaveEvents(batch) + NotifyEvents(batch, failures)
      ensures scraped.Err? || scraped.value == [] ==> seen == old(seen) && log == old(log)
    {
      batch := [];
      if scraped.Ok? && |scraped.value| > 0 {
        var showings := scraped.value;
        batch := NewOnes(showings, seen);
        if |batch| > 0 {
          // save first, so that a failing notifier cannot cause a second alert
          ghost var before := seen;
          SaveAll(batch);
          assert seen == before + Fingerprints(showings) by { SavedFingerprints(showings, before); }
          NotifyAll(batch, failures);
        } else {
          assert seen + Fingerprints(showings) == seen by { NoNewOnes(showings, seen); }
        }
      } else if scraped.Ok? {
        assert Fingerprints(scraped.value) == {};
      }
    }

    /** `newOnes.forEach { seenRepo.save(SeenShowing(it.fingerprint())) }`: inserting a stored fingerprint again is a no-op. */
    method SaveAll(batch: seq<ShowingRow>)
      modifies this`seen, this`log
      ensures seen == old(seen) + Fingerprints(batch)
      ensures log == old(log) + SaveEvents(batch)
    {
      var i := 0;
      while i < |batch|
        invariant 0 <= i <= |batch|
        invariant seen == old(seen) + Fingerprints(batch[..i])
        invariant log == old(log) + SaveEvents(batch[..i])
      {
        assert batch[..i + 1] == batch[..i] + [batch[i]];
        SaveEventsSnoc(batch[..i], batch[i]);
        seen := seen + {Fingerprint(batch[i])};
        log := log + [Saved(Fingerprint(batch[i]))];
        i := i + 1;
      }
      assert batch[..i] == batch;
    }

    /** `notifiers.forEach { try { it.notifyNewShowings(batch) } catch (e: Exception) { log } }`. */
    method NotifyAll(batch: seq<ShowingRow>, failures: seq<bool>)
      requires |failures| == |notifiers|
      modifies this`log
      ensures log == old(log) + NotifyEvents(batch, failures)
    {
      var k := 0;
      while k < |notifiers|
        invariant 0 <= k <= |notifiers|
        invariant log == old(log) + NotifyEvents(batch, failures[..k])
      {
        assert failures[..k + 1] == failures[..k] + [failures[k]];
        NotifyEventsSnoc(batch, failures[..k], failures[k]);
        log := log + [Notified(k, batch, failures[k])];
        k := k + 1;
      }
      assert failures[..k] == failures;
    }
  }

  /** Polling the same scrape twice: the second poll finds nothing new, saves nothing and notifies no one. */
  method PollTwice(m: ShowingsMonitor, rows: seq<ShowingRow>, failures1: seq<bool>, failures2: seq<bool>)
    returns (first: seq<ShowingRow>, second: seq<ShowingRow>)
    requires |failures1| == |m.notifiers| && |failures2| == |m.notifiers|
    modifies m
    ensures first == NewOnes(rows, old(m.seen)) && second == []
    ensures m.seen == old(m.seen) + Fingerprints(rows)
    ensures first == [] ==> m.log == old(m.log)
    ensures first != [] ==> m.log == old(m.log) + SaveEvents(first) + NotifyEvents(first, failures1)
  {
    first := m.Poll(Ok(rows), failures1);
    NothingNewAfterPoll(rows, old(m.seen));
    second := m.Poll(Ok(rows), failures2);
  }

  lemma SaveEventsSnoc(batch: seq<ShowingRow>, r: ShowingRow)
    ensures SaveEvents(batch + [r]) == SaveEvents(batch) + [Saved(Fingerprint(r))]
  {
    var a, b := SaveEvents(batch + [r]), SaveEvents(batch) + [Saved(Fingerprint(r))];
    assert |a| == |b|;
    forall i | 0 <= i < |a| ensures a[i] == b[i] {
      if i < |batch| { assert (batch + [r])[i] == batch[i]; }
    }
  }

  lemma NotifyEventsSnoc(batch: seq<ShowingRow>, failures: seq<bool>, failed: bool)
    ensures NotifyEvents(batch, failures + [failed]) == NotifyEvents(batch, failures) + [Notified(|failures|, batch, failed)]
  {
    var a, b := NotifyEvents(batch, failures + [failed]), NotifyEvents(batch, failures) + [Notified(|failures|, batch, failed)];
    assert |a| == |b|;
    forall i | 0 <= i < |a| ensures a[i] == b[i] {
      if i < |failures| { assert (failures + [failed])[i] == failures[i]; }
    }
  }

  // ---------------------------------------------------------------- the batch

  /** A row is in the batch exactly when it was scraped and its fingerprint was not yet stored. */
  lemma {:induction false} NewOnesMembers(rows: seq<ShowingRow>, seen: set<string>, x: ShowingRow)
    ensures x in NewOnes(rows, seen) <==> x in rows && Fingerprint(x) !in seen
  {
    if rows != [] {
      NewOnesMembers(rows[1..], seen, x);
      assert rows == [rows[0]] + rows[1..];
    }
  }

  /**
   * The batch keeps every copy of a new row: a row whose fingerprint was not stored occurs in the
   * batch as often as in the scrape, even when one scrape repeats a fingerprint.
   */
  lemma {:induction false} NewOnesKeepsDuplicates(rows: seq<ShowingRow>, seen: set<string>, x: ShowingRow)
    ensures multiset(NewOnes(rows, seen))[x] == if Fingerprint(x) in seen then 0 else multiset(rows)[x]
  {
    if rows != [] {
      NewOnesKeepsDuplicates(rows[1..], seen, x);
      assert rows == [rows[0]] + rows[1..];
      assert multiset(rows) == multiset([rows[0]]) + multiset(rows[1..]);
    }
  }

  /** The batch follows scrape order: filtering distributes over concatenation. */
  lemma {:induction false} NewOnesAppend(a: seq<ShowingRow>, b: seq<ShowingRow>, seen: set<string>)
    ensures NewOnes(a + b, seen) == NewOnes(a, seen) + NewOnes(b, seen)
  {
    if a != [] {
      assert (a + b)[1..] == a[1..] + b;
      NewOnesAppend(a[1..], b, seen);
    } else {
      assert a + b == b;
    }
  }

  /** When no scraped fingerprint was stored, the batch is the whole scrape. */
  lemma {:induction false} NewOnesAllFresh(rows: seq<ShowingRow>, seen: set<string>)
    requires forall k :: 0 <= k < |rows| ==> Fingerprint(rows[k]) !in seen
    ensures NewOnes(rows, seen) == rows
  {
    if rows != [] {
      NewOnesAllFresh(rows[1..], seen);
      assert rows == [rows[0]] + rows[1..];
    }
  }

  /** An empty batch means every scraped fingerprint was already stored. */
  lemma NoNewOnes(rows: seq<ShowingRow>, seen: set<string>)
    requires NewOnes(rows, seen) == []
    ensures Fingerprints(rows) <= seen
  {
    forall x | x in rows ensures Fingerprint(x) in seen {
      NewOnesMembers(rows, seen, x);
    }
  }

  /**
   * Saving the batch stores the fingerprint of every scraped row: those not saved now were
   * already stored. Nothing is removed.
   */
  lemma SavedFingerprints(rows: seq<ShowingRow>, seen: set<string>)
    ensures seen + Fingerprints(NewOnes(rows, seen)) == seen + Fingerprints(rows)
  {
    forall x | x in NewOnes(rows, seen) ensures x in rows {
      NewOnesMembers(rows, seen, x);
    }
    forall x | x in rows && Fingerprint(x) !in seen ensures x in NewOnes(rows, seen) {
      NewOnesMembers(rows, seen, x);
    }
  }

  /** After a poll has stored a scrape's fingerprints, the same scrape yields an empty batch. */
  lemma NothingNewAfterPoll(rows: seq<ShowingRow>, seen: set<string>)
    ensures NewOnes(rows, seen + Fingerprints(rows)) == []
  {
    var b := NewOnes(rows, seen + Fingerprints(rows));
    if b != [] {
      NewOnesMembers(rows, seen + Fingerprints(rows), b[0]);
      assert false;
    }
  }

  // ---------------------------------------------------------------- the cycle's events

  /** How many times notifier `k` is called in `events`. */
  function CallsTo(events: seq<Event>, k: nat): nat {
    if events == [] then 0
    else (if events[0].Notified? && events[0].notifier == k then 1 else 0) + CallsTo(events[1..], k)
  }

  lemma {:induction false} CallsToAppend(a: seq<Event>, b: seq<Event>, k: nat)
    ensures CallsTo(a + b, k) == CallsTo(a, k) + CallsTo(b, k)
  {
    if a != [] {
      assert (a + b)[1..] == a[1..] + b;
      CallsToAppend(a[1..], b, k);
    } else {
      assert a + b == b;
    }
  }

  lemma {:induction false} NoCallsInSaves(batch: seq<ShowingRow>, k: nat)
    ensures CallsTo(SaveEvents(batch), k) == 0
  {
    if batch != [] {
      NoCallsInSaves(batch[1..], k);
      assert SaveEvents(batch)[1..] == SaveEvents(batch[1..]);
    }
  }

  lemma {:induction false} CallsInNotifies(batch: seq<ShowingRow>, failures: seq<bool>, k: nat)
    ensures CallsTo(NotifyEvents(batch, failures), k) == if k < |failures| then 1 else 0
  {
    if failures != [] {
      var n := |failures| - 1;
      var init := failures[..n];
      CallsInNotifies(batch, init, k);
      assert NotifyEvents(batch, failures) == NotifyEvents(batch, init) + [Notified(n, batch, failures[n])];
      CallsToAppend(NotifyEvents(batch, init), [Notified(n, batch, failures[n])], k);
    }
  }

  /** In a cycle every configured notifier is called exactly once, whichever of them fail. */
  lemma EachNotifierCalledOnce(batch: seq<ShowingRow>, failures: seq<bool>, k: nat)
    ensures CallsTo(CycleEvents(batch, failures), k) == if k < |failures| then 1 else 0
  {
    CallsToAppend(SaveEvents(batch), NotifyEvents(batch, failures), k);
    NoCallsInSaves(batch, k);
    CallsInNotifies(batch, failures, k);
  }

  /** In a cycle every save comes before every notifier call, and every call carries the whole batch. */
  lemma SavesBeforeNotifies(batch: seq<ShowingRow>, failures: seq<bool>)
    ensures forall i, j :: (0 <= i < j < |CycleEvents(batch, failures)| && CycleEvents(batch, failures)[i].Notified?
      ==> CycleEvents(batch, failures)[j].Notified?)
    ensures forall j :: (0 <= j < |CycleEvents(batch, failures)| && CycleEvents(batch, failures)[j].Notified?
      ==> CycleEvents(batch, failures)[j].batch == batch)
    ensures forall f :: f in Fingerprints(batch) <==> Saved(f) in CycleEvents(batch, failures)
  {
    var e := CycleEvents(batch, failures);
    forall f | f in Fingerprints(batch) ensures Saved(f) in e {
      var r :| r in batch && Fingerprint(r) == f;
      var i :| 0 <= i < |batch| && batch[i] == r;
      assert e[i] == Saved(f);
    }
    forall f | Saved(f) in e ensures f in Fingerprints(batch) {
      var i :| 0 <= i < |e| && e[i] == Saved(f);
      assert i < |batch|;
      assert batch[i] in batch;
    }
  }
}
