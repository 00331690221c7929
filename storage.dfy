/**
  The task store (duke.tasks.Storage): an ordered list of tasks addressed by
  1-based positions, a numbered listing, a keyword search, and a data file
  that is overwritten with the listing after every change.
 */
module TaskStorage {
  import opened Strings
  import opened Tasks

  // ---------------------------------------------------------------------------
  // The listing and the search, as functions of the task sequence
  // ---------------------------------------------------------------------------

  /** The line for a task shown at 1-based position k: "k. " and its display. */
  function Entry(k: nat, t: Task): string
  {
    NatToString(k) + ". " + Display(t)
  }

  /** The tasks' entries, numbered 1, 2, ... in sequence order. */
  function Numbered(ts: seq<Task>): (r: seq<string>)
    ensures |r| == |ts|
  {
    if ts == [] then [] else Numbered(ts[..|ts| - 1]) + [Entry(|ts|, ts[|ts| - 1])]
  }

  /** The k-th line (0-based) shows the k-th task under the number k + 1. */
  lemma {:induction false} NumberedAt(ts: seq<Task>, k: int)
    requires 0 <= k < |ts|
    ensures Numbered(ts)[k] == Entry(k + 1, ts[k])
  {
    if k < |ts| - 1 {
      NumberedAt(ts[..|ts| - 1], k);
    }
  }

  /** Storage.toString(): the numbered entries joined by newlines. */
  function Listing(ts: seq<Task>): string
  {
    JoinLines(Numbered(ts))
  }

  /** The tasks whose description contains the keyword, in store order. */
  function Filter(ts: seq<Task>, keyword: string): (r: seq<Task>)
    ensures |r| <= |ts|
    ensures forall k :: 0 <= k < |r| ==> Matches(r[k], keyword)
  {
    if ts == [] then []
    else
      var init := Filter(ts[..|ts| - 1], keyword);
      var last := ts[|ts| - 1];
      if Matches(last, keyword) then init + [last] else init
  }

  /** Storage.find(keyword): the matches renumbered from 1, one per line, trimmed. */
  function FindResult(ts: seq<Task>, keyword: string): string
  {
    Trim(Terminated(Numbered(Filter(ts, keyword))))
  }

  /** The sequence after mark (done) or unmark (not done) of the task at 0-based k. */
  function SetCompleted(ts: seq<Task>, k: int, done: bool): (r: seq<Task>)
    requires 0 <= k < |ts|
    ensures |r| == |ts|
    ensures r[k] == WithCompletion(ts[k], done)
    ensures forall j :: 0 <= j < |ts| && j != k ==> r[j] == ts[j]
  {
    ts[k := WithCompletion(ts[k], done)]
  }

  /** The sequence after removing the task at 0-based k; later tasks move up one place. */
  function RemoveAt(ts: seq<Task>, k: int): (r: seq<Task>)
    requires 0 <= k < |ts|
    ensures |r| == |ts| - 1
    ensures forall j :: 0 <= j < k ==> r[j] == ts[j]
    ensures forall j :: k <= j < |r| ==> r[j] == ts[j + 1]
  {
    ts[..k] + ts[k + 1..]
  }

  // ---------------------------------------------------------------------------
  // Properties of the listing and the search
  // ---------------------------------------------------------------------------

  /** Every entry starts with its number, whose first char is a digit. */
  lemma EntryStartsWithDigit(k: nat, t: Task)
    ensures |Entry(k, t)| > 0 && IsDigit(Entry(k, t)[0])
  {
    assert Entry(k, t)[0] == NatToString(k)[0];
  }

  /** An entry ends with the task's display. */
  lemma EntryEndsWithDisplay(k: nat, t: Task)
    requires EndsVisible(Display(t))
    ensures EndsVisible(Entry(k, t))
  {
    var e := Entry(k, t);
    assert e[|e| - 1] == Display(t)[|Display(t)| - 1];
  }

  /** The listing is empty exactly when the store is. */
  lemma ListingEmptyIff(ts: seq<Task>)
    ensures Listing(ts) == "" <==> ts == []
  {
    if ts != [] {
      NumberedAt(ts, 0);
      EntryStartsWithDigit(1, ts[0]);
      JoinLinesStartsWith(Numbered(ts));
    }
  }

  /** Appending a task adds one line at the end of the listing, numbered |ts| + 1. */
  lemma ListingAppend(ts: seq<Task>, t: Task)
    ensures Listing(ts + [t]) == (if ts == [] then "" else Listing(ts) + "\n") + Entry(|ts| + 1, t)
  {
    assert (ts + [t])[..|ts|] == ts;
    if ts != [] {
      JoinLinesSnoc(Numbered(ts), Entry(|ts| + 1, t));
    }
  }

  /** After a removal, every task behind the removed one is listed one number lower. */
  lemma RemoveAtRenumbers(ts: seq<Task>, k: int, j: int)
    requires 0 <= k < |ts| && k <= j < |ts| - 1
    ensures Numbered(RemoveAt(ts, k))[j] == Entry(j + 1, ts[j + 1])
  {
    NumberedAt(RemoveAt(ts, k), j);
  }

  /** Filtering a concatenation filters each part: the matches keep store order. */
  lemma {:induction false} FilterAppend(a: seq<Task>, b: seq<Task>, keyword: string)
    ensures Filter(a + b, keyword) == Filter(a, keyword) + Filter(b, keyword)
    decreases |b|
  {
    if b == [] {
      assert a + b == a;
    } else {
      var b' := b[..|b| - 1];
      assert (a + b)[..|a + b| - 1] == a + b';
      FilterAppend(a, b', keyword);
    }
  }

  /** A task is among the matches exactly when it is stored and its description contains the keyword. */
  lemma {:induction false} FilterMembership(ts: seq<Task>, keyword: string, t: Task)
    ensures t in Filter(ts, keyword) <==> t in ts && Matches(t, keyword)
    decreases |ts|
  {
    if ts != [] {
      var init := ts[..|ts| - 1];
      FilterMembership(init, keyword, t);
      assert ts == init + [ts[|ts| - 1]];
    }
  }

  /** The empty keyword matches every task. */
  lemma {:induction false} FilterEmptyKeyword(ts: seq<Task>)
    ensures Filter(ts, "") == ts
    decreases |ts|
  {
    if ts != [] {
      FilterEmptyKeyword(ts[..|ts| - 1]);
      assert Matches(ts[|ts| - 1], "");
      assert ts[..|ts| - 1] + [ts[|ts| - 1]] == ts;
    }
  }

  /** find gives "" exactly when no description contains the keyword. */
  lemma FindEmptyIff(ts: seq<Task>, keyword: string)
    ensures FindResult(ts, keyword) == "" <==> Filter(ts, keyword) == []
  {
    var m := Filter(ts, keyword);
    if m != [] {
      var lines := Numbered(m);
      var text := Terminated(lines);
      TerminatedIsJoinedPlusNewline(lines);
      NumberedAt(m, 0);
      EntryStartsWithDigit(1, m[0]);
      JoinLinesStartsWith(lines);
      assert text[0] == lines[0][0];
      TrimKeepsVisibleStart(text);
    }
  }

  /**
    When the last match's display ends with a visible char, find's result is
    the listing of the matches alone: the same format as toString, numbered
    from 1 among the matches.
   */
  lemma FindIsListingOfMatches(ts: seq<Task>, keyword: string)
    requires Filter(ts, keyword) != []
    requires EndsVisible(Display(Filter(ts, keyword)[|Filter(ts, keyword)| - 1]))
    ensures FindResult(ts, keyword) == Listing(Filter(ts, keyword))
  {
    var m := Filter(ts, keyword);
    var lines := Numbered(m);
    var x := JoinLines(lines);
    assert Terminated(lines) == x + "\n" by {
      TerminatedIsJoinedPlusNewline(lines);
    }
    assert StartsVisible(x) by {
      NumberedAt(m, 0);
      EntryStartsWithDigit(1, m[0]);
      JoinLinesStartsWith(lines);
    }
    assert EndsVisible(x) by {
      NumberedAt(m, |m| - 1);
      EntryEndsWithDisplay(|m|, m[|m| - 1]);
      JoinLinesEndsWith(lines);
    }
    TrimDropsTrailing(x, "\n");
  }

  /**
    For every store and keyword, find's result is the listing of the matches
    (numbered from 1 among the matches, toString's format) put through trim.
   */
  lemma FindIsTrimmedListing(ts: seq<Task>, keyword: string)
    ensures FindResult(ts, keyword) == Trim(Listing(Filter(ts, keyword)))
  {
    var m := Filter(ts, keyword);
    if m != [] {
      var lines := Numbered(m);
      var x := JoinLines(lines);
      TerminatedIsJoinedPlusNewline(lines);
      assert StartsVisible(x) by {
        NumberedAt(m, 0);
        EntryStartsWithDigit(1, m[0]);
        JoinLinesStartsWith(lines);
      }
      TrimIgnoresTrailing(x, "\n");
    }
  }

  /** Marking or unmarking the same task twice leaves the state the first call made. */
  lemma SetCompletedIdempotent(ts: seq<Task>, k: int, done: bool)
    requires 0 <= k < |ts|
    ensures SetCompleted(SetCompleted(ts, k, done), k, done) == SetCompleted(ts, k, done)
  {
  }

  /** One step of the toString loop: entry i + 1 joins the listing of the first i tasks. */
  lemma ListingStep(ts: seq<Task>, i: int)
    requires 0 <= i < |ts|
    ensures JoinLines(Numbered(ts[..i + 1]))
         == (if i == 0 then "" else JoinLines(Numbered(ts[..i])) + "\n") + Entry(i + 1, ts[i])
  {
    assert ts[..i + 1] == ts[..i] + [ts[i]];
    ListingAppend(ts[..i], ts[i]);
  }

  /** Filtering one more task adds it at the end exactly when it matches. */
  lemma FilterStep(ts: seq<Task>, i: int, keyword: string)
    requires 0 <= i < |ts|
    ensures Filter(ts[..i + 1], keyword)
         == Filter(ts[..i], keyword) + (if Matches(ts[i], keyword) then [ts[i]] else [])
  {
    assert ts[..i + 1][..i] == ts[..i];
  }

  /** Numbering one more task gives it the next number. */
  lemma NumberedSnoc(ts: seq<Task>, t: Task)
    ensures Numbered(ts + [t]) == Numbered(ts) + [Entry(|ts| + 1, t)]
  {
    assert (ts + [t])[..|ts|] == ts;
  }

  /** One step of the find loop: task i is appended, numbered after the earlier matches, if it matches. */
  lemma FindStep(ts: seq<Task>, i: int, keyword: string)
    requires 0 <= i < |ts|
    ensures var before := Filter(ts[..i], keyword);
      Terminated(Numbered(Filter(ts[..i + 1], keyword)))
      == Terminated(Numbered(before))
         + (if Matches(ts[i], keyword) then Entry(|before| + 1, ts[i]) + "\n" else "")
  {
    var before := Filter(ts[..i], keyword);
    FilterStep(ts, i, keyword);
    if Matches(ts[i], keyword) {
      NumberedSnoc(before, ts[i]);
      var lines := Numbered(before) + [Entry(|before| + 1, ts[i])];
      assert lines[..|lines| - 1] == Numbered(before);
    } else {
      assert before + [] == before;
    }
  }

  // ---------------------------------------------------------------------------
  // The store itself
  // ---------------------------------------------------------------------------

  class Storage {
    /** The tasks in insertion order; 1-based position i is store[i - 1]. */
    var store: seq<Task>
    /** What the data file holds. */
    ghost var fileContents: string

    /** The data file shows the current listing. */
    ghost predicate Persisted()
      reads this
    {
      fileContents == Listing(store)
    }

    /** A store whose data file was created empty. */
    constructor ()
      ensures store == [] && fileContents == "" && Persisted()
    {
      store := [];
      fileContents := "";
    }

    /** Overwrites the data file with this.toString(). */
    method WriteToFile()
      modifies this`fileContents
      ensures fileContents == Listing(store)
    {
      var text := ToString();
      fileContents := text;
    }

    /** store.add(new Todo(s)): t is the task that constructor builds. */
    method Todo(t: Task)
      requires t.kind == TodoTask
      modifies this
      ensures store == old(store) + [t]
      ensures Persisted()
    {
      store := store + [t];
      WriteToFile();
    }

    /** store.add(new Event(s)): t is the task that constructor builds. */
    method Event(t: Task)
      requires t.kind == EventTask
      modifies this
      ensures store == old(store) + [t]
      ensures Persisted()
    {
      store := store + [t];
      WriteToFile();
    }

    /** store.add(new Deadline(s)): t is the task that constructor builds. */
    method Deadline(t: Task)
      requires t.kind == DeadlineTask
      modifies this
      ensures store == old(store) + [t]
      ensures Persisted()
    {
      store := store + [t];
      WriteToFile();
    }

    /** The numbered listing, built one entry at a time. */
    method ToString() returns (text: string)
      ensures text == Listing(store)
    {
      text := "";
      var j := 1;
      for i := 0 to |store|
        invariant j == i + 1
        invariant text == JoinLines(Numbered(store[..i])) + (if 0 < i < |store| then "\n" else "")
      {
        var entry := NatToString(j) + ". " + Display(store[i]);
        ListingStep(store, i);
        text := text + entry;
        if i != |store| - 1 {
          text := text + "\n";
        }
        j := j + 1;
      }
      assert store[..|store|] == store;
    }

    /** Storage.mark(i): the task at 1-based position i is completed. */
    method Mark(i: int)
      requires 1 <= i <= |store|
      modifies this
      ensures store == SetCompleted(old(store), i - 1, true)
      ensures Persisted()
    {
      store := store[i - 1 := WithCompletion(store[i - 1], true)];
      WriteToFile();
    }

    /** Storage.unmark(i): the task at 1-based position i is not completed. */
    method Unmark(i: int)
      requires 1 <= i <= |store|
      modifies this
      ensures store == SetCompleted(old(store), i - 1, false)
      ensures Persisted()
    {
      store := store[i - 1 := WithCompletion(store[i - 1], false)];
      WriteToFile();
    }

    /** Storage.delete(i): the task at 1-based position i is removed. */
    method Delete(i: int)
      requires 1 <= i <= |store|
      modifies this
      ensures store == RemoveAt(old(store), i - 1)
      ensures |store| == |old(store)| - 1
      ensures Persisted()
    {
      store := store[..i - 1] + store[i..];
      WriteToFile();
    }

    /** The tasks whose description contains s, renumbered from 1, one per line. */
    method Find(s: string) returns (text: string)
      ensures text == FindResult(store, s)
    {
      var thing := "";
      var j := 1;
      for i := 0 to |store|
        invariant j == |Filter(store[..i], s)| + 1
        invariant thing == Terminated(Numbered(Filter(store[..i], s)))
      {
        FilterStep(store, i, s);
        FindStep(store, i, s);
        if Matches(store[i], s) {
          thing := thing + (NatToString(j) + ". " + Display(store[i]) + "\n");
          j := j + 1;
        }
      }
      assert store[..|store|] == store;
      assert thing == Terminated(Numbered(Filter(store, s)));
      text := Trim(thing);
    }

    /** Storage.clear(): no tasks, and an empty data file. */
    method Clear()
      modifies this
      ensures store == [] && fileContents == ""
      ensures Persisted()
      ensures old(store) == [] && old(Persisted()) ==> fileContents == old(fileContents)
    {
      store := [];
      WriteToFile();
    }

    /** Storage.size(). */
    method Size() returns (n: int)
      ensures n == |store|
    {
      n := |store|;
    }
  }
}
