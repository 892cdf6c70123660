/**
 Shipping journal entries in bounded batches. The saved cursor must never get past an
 entry the server has not accepted, wherever a cycle fails or the agent dies.
 */
module JournalReport {
  import opened Common

  const BATCH_MAX_ENTRIES := 100
  const BATCH_MAX_BYTES := 262144
  const MAX_BATCHES := 8

  /** A line that does not parse, or has no message, is skipped. */
  datatype Line = Skipped | Entry(hasCursor: bool, bytes: nat)

  function Size(journal: seq<Line>, items: seq<nat>): nat {
    if items == [] then 0
    else
      var last := items[|items| - 1];
      Size(journal, items[..|items| - 1]) + if last < |journal| && journal[last].Entry? then journal[last].bytes else 0
  }

  /** A batch goes out as soon as it has a hundred entries or 256 KiB. */
  predicate GoesOut(journal: seq<Line>, items: seq<nat>) {
    |items| >= 100 || Size(journal, items) >= 262144
  }

  /** It was sent no later than that. */
  predicate InTime(journal: seq<Line>, items: seq<nat>) {
    items != [] && !GoesOut(journal, items[..|items| - 1])
  }

  /** The positions of the entries from `i` up to `j`. */
  function Entries(journal: seq<Line>, i: nat, j: nat): seq<nat>
    requires i <= j <= |journal|
  {
    if i == j then []
    else Entries(journal, i, j - 1) + if journal[j - 1].Entry? then [j - 1] else []
  }

  function Joined(batches: seq<seq<nat>>): seq<nat> {
    if batches == [] then [] else Joined(batches[..|batches| - 1]) + batches[|batches| - 1]
  }

  lemma JoinedOneMore(batches: seq<seq<nat>>, items: seq<nat>)
    ensures Joined(batches + [items]) == Joined(batches) + items
  {
    assert (batches + [items])[..|batches|] == batches;
  }

  lemma SizeOneMore(journal: seq<Line>, items: seq<nat>, i: nat)
    requires i < |journal| && journal[i].Entry?
    ensures Size(journal, items + [i]) == Size(journal, items) + journal[i].bytes
    ensures !GoesOut(journal, items) ==> InTime(journal, items + [i])
  {
    assert (items + [i])[..|items|] == items;
  }

  /** All batches but the last one were full, and all were sent in time. */
  predicate Cut(journal: seq<Line>, batches: seq<seq<nat>>, full: nat) {
    && full <= |batches| <= full + 1
    && (forall k :: 0 <= k < |batches| ==> InTime(journal, batches[k]))
    && forall k :: 0 <= k < full ==> GoesOut(journal, batches[k])
  }

  /** Of the lines from `start` up to `i`: the entries of `mine`, which are `full` batches
      cut as they should be, and then `items`. */
  predicate Told(journal: seq<Line>, mine: seq<seq<nat>>, full: nat, start: nat, i: nat, items: seq<nat>) {
    && start <= i <= |journal| && |mine| == full && Cut(journal, mine, full)
    && Joined(mine) + items == Entries(journal, start, i)
  }

  lemma ToldInTheEnd(journal: seq<Line>, mine: seq<seq<nat>>, full: nat, start: nat, i: nat, items: seq<nat>)
    requires Told(journal, mine, full, start, i, items) && (items != [] ==> InTime(journal, items))
    ensures start <= i <= |journal|
    ensures var all := mine + if items == [] then [] else [items];
      Joined(all) == Entries(journal, start, i) && Cut(journal, all, full)
  {
    if items == [] {
      assert Joined(mine) + [] == Joined(mine) && mine + [] == mine;
    } else {
      ToldBatch(journal, mine, full, start, i, items);
    }
  }

  lemma SizeOfNone(journal: seq<Line>)
    ensures Size(journal, []) == 0
  {
  }

  /** The code's own test. */
  lemma FullGoesOut(journal: seq<Line>, items: seq<nat>)
    ensures |items| >= BATCH_MAX_ENTRIES || Size(journal, items) >= BATCH_MAX_BYTES <==> GoesOut(journal, items)
  {
  }

  lemma ToldNothing(journal: seq<Line>, start: nat)
    requires start <= |journal|
    ensures Told(journal, [], 0, start, start, [])
  {
  }

  lemma ToldLine(journal: seq<Line>, mine: seq<seq<nat>>, full: nat, start: nat, i: nat, items: seq<nat>)
    requires Told(journal, mine, full, start, i, items) && i < |journal|
    ensures Told(journal, mine, full, start, i + 1, if journal[i].Entry? then items + [i] else items)
  {
    if journal[i].Entry? {
      assert Joined(mine) + (items + [i]) == Joined(mine) + items + [i];
    }
  }

  lemma ToldBatch(journal: seq<Line>, mine: seq<seq<nat>>, full: nat, start: nat, i: nat, items: seq<nat>)
    requires Told(journal, mine, full, start, i, items) && InTime(journal, items)
    ensures Joined(mine + [items]) == Entries(journal, start, i) && Cut(journal, mine + [items], full)
    ensures GoesOut(journal, items) ==> Told(journal, mine + [items], full + 1, start, i, [])
  {
    JoinedOneMore(mine, items);
    assert Joined(mine + [items]) + [] == Joined(mine + [items]);
  }

  /** Entries are named by their position in the journal. */
  class Batch {
    var items: seq<nat>
    var bytes: nat

    constructor ()
      ensures items == [] && bytes == 0
    {
      items, bytes := [], 0;
    }

    method Add(item: nat, size: nat)
      modifies this
      ensures items == old(items) + [item] && bytes == old(bytes) + size
    {
      items, bytes := items + [item], bytes + size;
    }

    predicate Full()
      reads this
    {
      |items| >= BATCH_MAX_ENTRIES || bytes >= BATCH_MAX_BYTES
    }

    method Reset()
      modifies this
      ensures items == [] && bytes == 0
    {
      items, bytes := [], 0;
    }
  }

  class Reporter {
    const journal: seq<Line>
    /** Durable: the cursor stands behind this many lines. */
    var saved: nat
    /** What the server has accepted, also when the response was lost. */
    ghost var accepted: set<nat>
    /** All batches sent so far. */
    ghost var sent: seq<seq<nat>>

    /** No entry before the saved cursor is missing on the server. */
    ghost predicate Valid()
      reads this
    {
      saved <= |journal| && AcceptedBefore(saved)
    }

    ghost predicate AcceptedBefore(n: nat)
      reads this
      requires n <= |journal|
    {
      forall i :: 0 <= i < n && journal[i].Entry? ==> i in accepted
    }

    constructor (journal: seq<Line>)
      ensures Valid() && saved == 0 && this.journal == journal
    {
      this.journal := journal;
      saved, accepted, sent := 0, {}, [];
    }

    method Post(items: seq<nat>) returns (ok: bool)
      requires Valid()
      modifies this`accepted, this`sent
      ensures Valid() && old(accepted) <= accepted && sent == old(sent) + [items]
      ensures ok ==> forall i <- items :: i in accepted
    {
      sent := sent + [items];
      if * {
        return false; // the request was lost
      }
      accepted := accepted + set i | i in items;
      ok := *; // so may the response be
    }

    method SaveCursor(cursor: nat) returns (o: Outcome)
      requires Valid() && cursor <= |journal| && AcceptedBefore(cursor)
      modifies this`saved
      ensures Valid()
      ensures saved == if o == Outcome.Failed then old(saved) else cursor
    {
      if * {
        return Outcome.Failed;
      }
      saved := cursor;
      o := *;
      if o == Outcome.Failed {
        o := Crashed;
      }
    }

    /** Everything before `upTo` was accepted or is in the batch. */
    ghost predicate Collected(batch: Batch, upTo: nat)
      reads this, batch
      requires upTo <= |journal|
    {
      && (forall i :: 0 <= i < upTo && journal[i].Entry? ==> i in accepted || i in batch.items)
      && |batch.items| <= BATCH_MAX_ENTRIES && batch.bytes == Size(journal, batch.items)
    }

    method Flush(batch: Batch, cursor: nat) returns (o: Outcome)
      requires Valid() && cursor <= |journal| && Collected(batch, cursor)
      modifies this, batch
      ensures Valid() && old(accepted) <= accepted
      ensures o == Done ==> batch.items == [] && batch.bytes == 0
      ensures o == Done ==> forall i <- old(batch.items) :: i in accepted
      ensures o == Done && old(batch.items) != [] ==> saved == cursor
      ensures old(batch.items) == [] ==> o == Done && saved == old(saved)
      ensures sent == if old(batch.items) == [] then old(sent) else old(sent) + [old(batch.items)]
    {
      if |batch.items| == 0 {
        batch.Reset();
        return Done;
      }
      var ok := Post(batch.items);
      if !ok {
        return Outcome.Failed;
      }
      o := SaveCursor(cursor);
      if o == Done {
        batch.Reset();
      }
    }

    /** The entry at `i` joins the batch, which goes out when it is full. */
    method AddEntry(batch: Batch, i: nat, cursor: nat, ghost before: seq<seq<nat>>, ghost batches: nat, ghost start: nat)
      returns (o: Outcome, full: bool)
      requires Valid() && i < |journal| && journal[i].Entry? && cursor <= i + 1 && Collected(batch, i) && !batch.Full()
      requires before <= sent && Told(journal, sent[|before|..], batches, start, i, batch.items)
      modifies this, batch
      ensures Valid() && old(accepted) <= accepted && before <= sent
      ensures o == Done ==>
        && Collected(batch, i + 1)
        && Told(journal, sent[|before|..], if full then batches + 1 else batches, start, i + 1, batch.items)
        && (if full then batch.items == [] && saved == cursor else !batch.Full() && saved == old(saved) && InTime(journal, batch.items))
    {
      hide Told, Cut, Joined, Entries, InTime, GoesOut, Size;
      ToldLine(journal, sent[|before|..], batches, start, i, batch.items);
      FullGoesOut(journal, batch.items);
      SizeOneMore(journal, batch.items, i);
      batch.Add(i, journal[i].bytes);
      assert batch.items[|batch.items| - 1] == i;
      FullGoesOut(journal, batch.items);
      full := batch.Full();
      if !full {
        return Done, false;
      }
      ToldBatch(journal, sent[|before|..], batches, start, i + 1, batch.items);
      ghost var was, items := sent, batch.items;
      o := Flush(batch, cursor);
      assert sent[|before|..] == was[|before|..] + [items];
      SizeOfNone(journal);
    }

    /** The last batch of a cycle; the cursor is saved in any case. */
    method Finish(batch: Batch, cursor: nat) returns (o: Outcome)
      requires Valid() && cursor <= |journal| && Collected(batch, cursor)
      modifies this, batch
      ensures Valid() && old(accepted) <= accepted
      ensures o == Done ==> saved == cursor && forall i <- old(batch.items) :: i in accepted
      ensures sent == old(sent) + if old(batch.items) == [] then [] else [old(batch.items)]
    {
      o := Flush(batch, cursor);
      if o == Done {
        o := SaveCursor(cursor);
      }
    }

    /** The cursor stands right behind the last entry with a cursor among the first `n`. */
    ghost predicate CursorBehind(cursor: nat, start: nat, n: nat)
      requires n <= |journal|
    {
      && cursor <= n
      && (cursor > start ==> journal[cursor - 1].Entry? && journal[cursor - 1].hasCursor)
      && forall i :: cursor <= i < n ==> journal[i].Entry? ==> !journal[i].hasCursor
    }

    /** One cycle over the lines behind the cursor, up to `available`; `read` of them are
        read, which is all of them unless the batches of one cycle are used up. */
    method ReportLogs(available: nat) returns (o: Outcome, ghost read: nat, batches: nat)
      requires Valid() && saved <= available <= |journal|
      modifies this
      ensures Valid() && old(accepted) <= accepted
      ensures o == Done ==> old(saved) <= saved <= read <= available && AcceptedBefore(read)
      ensures o == Done ==> CursorBehind(saved, old(saved), read) && (read < available ==> batches >= MAX_BATCHES)
      ensures old(sent) <= sent
      ensures o == Done ==>
        var mine := sent[|old(sent)|..];
        && Joined(mine) == Entries(journal, old(saved), read) && batches <= 8
        && Cut(journal, mine, batches) && (read < available ==> batches == 8)
    {
      hide Told, Cut, Joined, Entries, InTime, GoesOut, Size;
      var batch := new Batch();
      var cursor := saved;
      batches, read := 0, saved;
      var i := saved;
      var stopped := false;
      assert Collected(batch, i) by { SizeOfNone(journal); }
      ToldNothing(journal, saved);
      assert sent[|old(sent)|..] == [];
      while i < available && !stopped
        modifies this, batch
        invariant saved <= cursor <= i <= available && old(saved) <= saved && fresh(batch)
        invariant Valid() && old(accepted) <= accepted && Collected(batch, i)
        invariant !stopped ==> !batch.Full()
        invariant stopped ==> batch.items == [] && batches >= MAX_BATCHES
        invariant CursorBehind(cursor, old(saved), i) && (stopped ==> saved == cursor)
        invariant old(sent) <= sent && Told(journal, sent[|old(sent)|..], batches, old(saved), i, batch.items)
        invariant batches <= 8 && (batches == 8 ==> stopped)
        invariant batch.items != [] ==> InTime(journal, batch.items)
      {
        var line := journal[i];
        ToldLine(journal, sent[|old(sent)|..], batches, old(saved), i, batch.items);
        i := i + 1;
        if line.Entry? {
          if line.hasCursor {
            cursor := i;
          }
          var full;
          o, full := AddEntry(batch, i - 1, cursor, old(sent), batches, old(saved));
          if o != Done {
            return;
          }
          if full {
            batches := batches + 1;
            stopped := batches >= MAX_BATCHES;
          }
        }
      }
      read := i;
      if * {
        return Outcome.Failed, read, batches; // the stream broke
      }
      ghost var mine, items := sent[|old(sent)|..], batch.items;
      ToldInTheEnd(journal, mine, batches, old(saved), read, items);
      o := Finish(batch, cursor);
      assert sent[|old(sent)|..] == mine + if items == [] then [] else [items];
    }
  }
}
