/**
  NumberCommand.execute(storage, indexText, op): the mark, unmark and delete
  commands. The index text must read as an int, then lie in 1..size(), and
  only then is the store changed; each outcome has its own fixed reply.
 */
module NumberCommand {
  import opened Wrappers
  import opened Strings
  import opened Tasks
  import opened TaskStorage

  /** The operation the command word selects. */
  datatype IndexOp = Mark | Unmark | Delete

  /** Where validation of the index text ends up. */
  datatype Verdict = NotNumeric | OutOfBounds | InRange(index: int)

  /** The reply to index text that is not an int. */
  const NotANumber: string := "sorry bud that ain't a number" + "\n" + "i don't know which task u're referring to..."

  /** The reply to a number outside 1..size. */
  function OutOfRange(size: nat): string
  {
    "that number isn't a valid task dude..." + "\n" + "it has to be from 1 to " + NatToString(size)
  }

  /** The second line of every confirmation. */
  const SeeChanges: string := "\n" + "use \"list\" to see changes"

  function Verb(op: IndexOp): string
  {
    if op.Delete? then "deleted " else "marked "
  }

  function Status(op: IndexOp): string
  {
    match op
    case Mark => " as completed"
    case Unmark => " as uncompleted"
    case Delete => ""
  }

  /**
    The reply once op has been applied to the task at 1-based position i:
    "marked i as completed", "marked i as uncompleted" or "deleted i", then
    the hint to use "list".
   */
  function Confirmation(op: IndexOp, i: nat): string
  {
    Verb(op) + NatToString(i) + Status(op) + SeeChanges
  }

  /** First the numeric check, then the range check against the store size. */
  function Validate(indexText: string, size: nat): (v: Verdict)
    ensures v.NotNumeric? <==> ParseInt(indexText).None?
    ensures v.InRange? <==> ParseInt(indexText).Some? && 1 <= ParseInt(indexText).value <= size
    ensures v.InRange? ==> v.index == ParseInt(indexText).value
  {
    match ParseInt(indexText)
    case None => NotNumeric
    case Some(i) => if 1 <= i <= size then InRange(i) else OutOfBounds
  }

  /** The task sequence after op on the task at 1-based position i. */
  function Apply(op: IndexOp, ts: seq<Task>, i: int): (r: seq<Task>)
    requires 1 <= i <= |ts|
    ensures op.Delete? ==> |r| == |ts| - 1
    ensures !op.Delete? ==> |r| == |ts| && r[i - 1].completed == op.Mark?
  {
    match op
    case Mark => SetCompleted(ts, i - 1, true)
    case Unmark => SetCompleted(ts, i - 1, false)
    case Delete => RemoveAt(ts, i - 1)
  }

  /** What execute does to a store holding ts: the new task sequence and the reply. */
  function Outcome(ts: seq<Task>, indexText: string, op: IndexOp): (seq<Task>, string)
  {
    match Validate(indexText, |ts|)
    case NotNumeric => (ts, NotANumber)
    case OutOfBounds => (ts, OutOfRange(|ts|))
    case InRange(i) => (Apply(op, ts, i), Confirmation(op, i))
  }

  /** NumberCommand.execute. */
  method Execute(storage: Storage, indexText: string, op: IndexOp) returns (reply: string)
    modifies storage
    ensures (storage.store, reply) == Outcome(old(storage.store), indexText, op)
    ensures Validate(indexText, |old(storage.store)|).InRange? ==> storage.Persisted()
    ensures !Validate(indexText, |old(storage.store)|).InRange? ==> storage.fileContents == old(storage.fileContents)
  {
    var parsed := ParseInt(indexText);
    if parsed.None? {
      return NotANumber;
    }
    var i := parsed.value;
    var size := storage.Size();
    if i < 1 || i > size {
      return OutOfRange(size);
    }
    match op {
      case Mark => storage.Mark(i);
      case Unmark => storage.Unmark(i);
      case Delete => storage.Delete(i);
    }
    reply := Confirmation(op, i);
  }

  // ---------------------------------------------------------------------------
  // Properties of execute
  // ---------------------------------------------------------------------------

  /** The store changes only when the index text is a number in 1..size. */
  lemma RejectedIndexLeavesStore(ts: seq<Task>, indexText: string, op: IndexOp)
    requires !Validate(indexText, |ts|).InRange?
    ensures Outcome(ts, indexText, op).0 == ts
  {
  }

  /** The number of leading digits. */
  function DigitRun(s: string): (n: nat)
    ensures n <= |s|
  {
    if |s| == 0 || !IsDigit(s[0]) then 0 else 1 + DigitRun(s[1..])
  }

  lemma {:induction false} DigitRunOfNumeral(a: string, b: string)
    requires IsDigits(a) && |b| > 0 && !IsDigit(b[0])
    ensures DigitRun(a + b) == |a|
    decreases |a|
  {
    if a == [] {
      assert a + b == b;
    } else {
      assert (a + b)[0] == a[0];
      assert (a + b)[1..] == a[1..] + b;
      DigitRunOfNumeral(a[1..], b);
    }
  }

  /** A digit string followed by a non-digit splits in one way only. */
  lemma NumeralPrefixUnique(a: string, b: string, c: string, d: string)
    requires IsDigits(a) && IsDigits(c)
    requires |b| > 0 && !IsDigit(b[0]) && |d| > 0 && !IsDigit(d[0])
    requires a + b == c + d
    ensures a == c && b == d
  {
    DigitRunOfNumeral(a, b);
    DigitRunOfNumeral(c, d);
    assert a == (a + b)[..|a|] && b == (a + b)[|a|..];
    assert c == (c + d)[..|c|] && d == (c + d)[|c|..];
  }

  /** The reply tells which of the three outcomes happened. */
  lemma RepliesAreDistinct(size: nat, op: IndexOp, i: nat)
    ensures NotANumber != OutOfRange(size)
    ensures NotANumber != Confirmation(op, i)
    ensures OutOfRange(size) != Confirmation(op, i)
  {
    assert NotANumber[0] == 's';
    assert OutOfRange(size)[0] == 't';
    assert Confirmation(op, i)[0] == Verb(op)[0];
  }

  /** The range error names the store size it was checked against. */
  lemma OutOfRangeNamesSize(m: nat, n: nat)
    requires OutOfRange(m) == OutOfRange(n)
    ensures m == n
  {
    var prefix := "that number isn't a valid task dude..." + "\n" + "it has to be from 1 to ";
    assert NatToString(m) == OutOfRange(m)[|prefix|..];
    assert NatToString(n) == OutOfRange(n)[|prefix|..];
    NatToStringInjective(m, n);
  }

  /** A confirmation names its operation and its index. */
  lemma ConfirmationNamesOpAndIndex(op: IndexOp, i: nat, op': IndexOp, i': nat)
    requires Confirmation(op, i) == Confirmation(op', i')
    ensures op == op' && i == i'
  {
    ConfirmationAfterVerb(op, i);
    ConfirmationAfterVerb(op', i');
    var tail, tail' := Status(op) + SeeChanges, Status(op') + SeeChanges;
    NumeralPrefixUnique(NatToString(i), tail, NatToString(i'), tail');
    NatToStringInjective(i, i');
    StatusDistinct(op, op');
  }

  /** Past its verb, a confirmation is the index followed by a non-digit. */
  lemma ConfirmationAfterVerb(op: IndexOp, i: nat)
    ensures |Verb(op)| == (if op.Delete? then 8 else 7)
    ensures Confirmation(op, i)[0] == (if op.Delete? then 'd' else 'm')
    ensures Confirmation(op, i)[|Verb(op)|..] == NatToString(i) + (Status(op) + SeeChanges)
    ensures !IsDigit((Status(op) + SeeChanges)[0])
  {
    var c := Confirmation(op, i);
    assert c == Verb(op) + (NatToString(i) + (Status(op) + SeeChanges));
  }

  lemma StatusDistinct(op: IndexOp, op': IndexOp)
    requires Verb(op) == Verb(op') && Status(op) + SeeChanges == Status(op') + SeeChanges
    ensures op == op'
  {
  }

  /** The reply is the non-numeric message exactly when the text is not an int. */
  lemma NotANumberIff(ts: seq<Task>, indexText: string, op: IndexOp)
    ensures Outcome(ts, indexText, op).1 == NotANumber <==> ParseInt(indexText).None?
  {
    match Validate(indexText, |ts|)
    case NotNumeric =>
    case OutOfBounds => RepliesAreDistinct(|ts|, op, 0);
    case InRange(i) => RepliesAreDistinct(|ts|, op, i);
  }

  /** The reply is the range message exactly when the number lies outside 1..size. */
  lemma OutOfRangeIff(ts: seq<Task>, indexText: string, op: IndexOp)
    ensures Outcome(ts, indexText, op).1 == OutOfRange(|ts|)
        <==> ParseInt(indexText).Some? && !(1 <= ParseInt(indexText).value <= |ts|)
  {
    match Validate(indexText, |ts|)
    case NotNumeric => RepliesAreDistinct(|ts|, op, 0);
    case OutOfBounds =>
    case InRange(i) => RepliesAreDistinct(|ts|, op, i);
  }
}

/**
  The scenarios of NumberCommandTest: a cleared store holding the two todos
  "Task 1" and "Task 3", then one command each.
 */
module NumberCommandTest {
  import opened Strings
  import opened Tasks
  import opened TaskStorage
  import opened NumberCommand

  /** What `new Todo(text)` is known to build: a todo with that description, not completed. */
  predicate NewTodo(t: Task, text: string)
  {
    t.kind == TodoTask && t.description == text && !t.completed
  }

  /** setUp: new Storage(), clear(), todo("Task 1"), todo("Task 3"). */
  method SetUp(t1: Task, t3: Task) returns (storage: Storage)
    requires NewTodo(t1, "Task 1") && NewTodo(t3, "Task 3")
    ensures fresh(storage)
    ensures storage.store == [t1, t3] && storage.Persisted()
  {
    storage := new Storage();
    storage.Clear();
    storage.Todo(t1);
    storage.Todo(t3);
  }

  method ExecuteMarkValidTask(t1: Task, t3: Task) returns (result: string, first: Task)
    requires NewTodo(t1, "Task 1") && NewTodo(t3, "Task 3")
    ensures result == "marked 1 as completed" + "\n" + "use \"list\" to see changes"
    ensures first == t1.(completed := true)
  {
    var storage := SetUp(t1, t3);
    ParseIntOfNatToString(1);
    assert NatToString(1) == "1";
    result := Execute(storage, "1", Mark);
    first := storage.store[0];
  }

  method ExecuteUnmarkValidTask(t1: Task, t3: Task) returns (result: string, first: Task)
    requires NewTodo(t1, "Task 1") && NewTodo(t3, "Task 3")
    ensures result == "marked 1 as uncompleted" + "\n" + "use \"list\" to see changes"
    ensures first == t1
  {
    var storage := SetUp(t1, t3);
    ParseIntOfNatToString(1);
    assert NatToString(1) == "1";
    var _ := Execute(storage, "1", Mark);
    result := Execute(storage, "1", Unmark);
    first := storage.store[0];
  }

  method ExecuteDeleteValidTask(t1: Task, t3: Task) returns (result: string, size: int)
    requires NewTodo(t1, "Task 1") && NewTodo(t3, "Task 3")
    ensures result == "deleted 1" + "\n" + "use \"list\" to see changes"
    ensures size == 1
  {
    var storage := SetUp(t1, t3);
    ParseIntOfNatToString(1);
    assert NatToString(1) == "1";
    result := Execute(storage, "1", Delete);
    size := storage.Size();
  }

  method ExecuteInvalidNumber(t1: Task, t3: Task) returns (result: string, after: seq<Task>)
    requires NewTodo(t1, "Task 1") && NewTodo(t3, "Task 3")
    ensures result == "that number isn't a valid task dude..." + "\n" + "it has to be from 1 to 2"
    ensures after == [t1, t3]
  {
    var storage := SetUp(t1, t3);
    ParseIntOfNatToString(10);
    assert NatToString(10) == "10";
    assert NatToString(2) == "2";
    result := Execute(storage, "10", Mark);
    after := storage.store;
  }

  method ExecuteNonNumericInput(t1: Task, t3: Task) returns (result: string, after: seq<Task>)
    requires NewTodo(t1, "Task 1") && NewTodo(t3, "Task 3")
    ensures result == "sorry bud that ain't a number" + "\n" + "i don't know which task u're referring to..."
    ensures after == [t1, t3]
  {
    var storage := SetUp(t1, t3);
    assert !IsDigit("abc"[0]);
    result := Execute(storage, "abc", Mark);
    after := storage.store;
  }
}
