# Task store of the Not-gpt task tracker, in Dafny

This project models the core of a personal task tracker, which has three parts:

- **The task store** (`duke.tasks.Storage`). It keeps an ordered list of tasks. Each task is a todo, an event or a deadline. The store addresses tasks by 1-based position. It can mark, unmark and delete a task, list all tasks, search them, clear them and count them. After every change it overwrites its data file with its own numbered listing.
- **The index command** (`NumberCommand.execute`). It reads the index text as an int, checks the range 1..size and only then calls mark, unmark or delete. Each outcome has its own fixed reply.
- **The date parser** (`DateParser.giveDate`). It turns a dotted `year.month.day` date into `day Mon year`, or gives null.

Modules, one per part of the program:

- `Wrappers`: `Option`, which stands for Java's null results.
- `Strings`: the Java string operations the core relies on. These are int-to-text (`"" + n`), `Integer.parseInt`, `String.contains`, `String.trim`, joining lines and splitting on a char.
- `Tasks`: the task as the store sees it.
- `TaskStorage`: the `Storage` class, plus the functions that specify its listing and its search.
- `NumberCommand`: the validator and `Execute`. `NumberCommandTest` holds the scenarios of the unit test.
- `DateParser`: `GiveDate` and the cases of its unit test.

How the model is built:

- **Tasks.** The `Todo`, `Event` and `Deadline` classes are not part of this model. So a `Task` holds its kind, its description (what `getTask()` returns) and its completion flag. It also holds the two renderings its `toString()` can give, one for "not done" and one for "done", as opaque strings. `Display` picks the one the flag selects. Marking a task therefore changes the listing without the model inventing a display format.
- **The store.** `Storage` is a class. Its `store: seq<Task>` field is reassigned by every mutator, and a ghost field `fileContents` stands for the data file. Every mutator ends in `WriteToFile`, which stores the result of `ToString()`. So `fileContents == Listing(store)` after every change (`Persisted()`).
- **Listing and search.** `ToString` and `Find` are loops, as in the source. They are proved equal to the functions `Listing` and `FindResult`. The lemmas beside those functions state what the listing and the search mean.
- **Indexes.** `mark`, `unmark` and `delete` do no range check of their own. Out of range, `ArrayList.get`/`remove` throws. So `1 <= i <= |store|` is their precondition. `NumberCommand.Execute` establishes it, and the verifier checks that the range check comes before the call.

Three places where the code does something a reader might not expect:

- **The data file.** It receives the numbered display listing (`this.toString()`), not a per-task encoding.
- **Range checks.** `Storage` itself does no range check; the check belongs to the index command.
- **Find's result.** It is trimmed with `String.trim`. That also removes trailing blanks of the last match's display, and turns an empty display into `"k."`.

The source code of the index command and of the date parser is not available. Their behaviour comes from their unit tests, and this model fills in the rest as follows:

- **Index text.** It is read as `Integer.parseInt` reads it: an optional sign, ASCII digits (leading zeros allowed) and a value within the int range. Anything else gets the "not a number" reply.
- **The operation.** It is one of `Mark`, `Unmark` and `Delete`.
- **The confirmation.** It names the parsed number.
- **Dates.** A date is exactly three non-empty digit runs separated by `.`. The month must be 1..12 and is named from a fixed table. The day must be 1..31. Leading zeros are accepted in every field, and day and year are written as decimal numbers without them.

## Model

| member | source | states |
|---|---|---|
| `TaskStorage.Storage.constructor` | src/main/java/duke/tasks/Storage.java:30-48 | a new store with a freshly created data file is empty and its file is empty |
| `TaskStorage.Storage.WriteToFile` | src/main/java/duke/tasks/Storage.java:56-64 | the file is overwritten with this.toString(), i.e. the listing of the current tasks |
| `TaskStorage.Storage.Todo` | src/main/java/duke/tasks/Storage.java:71-74 | the new todo is appended at the end, every earlier task unchanged, and the file shows the new listing |
| `TaskStorage.Storage.Event` | src/main/java/duke/tasks/Storage.java:81-84 | the new event is appended at the end, every earlier task unchanged, and the file shows the new listing |
| `TaskStorage.Storage.Deadline` | src/main/java/duke/tasks/Storage.java:91-94 | the new deadline is appended at the end, every earlier task unchanged, and the file shows the new listing |
| `TaskStorage.Storage.ToString` | src/main/java/duke/tasks/Storage.java:104-115 | the loop builds exactly the listing: entry k is "k. " and the k-th task's display, entries joined by "\n", no trailing newline |
| `TaskStorage.NumberedAt` | src/main/java/duke/tasks/Storage.java:106-112 | line k of the listing (0-based) shows task k under the number k + 1 |
| `TaskStorage.ListingEmptyIff` | src/main/java/duke/tasks/Storage.java:104-115 | the listing is "" exactly when the store is empty |
| `TaskStorage.ListingAppend` | src/main/java/duke/tasks/Storage.java:104-115 | appending a task adds one line at the end of the listing, numbered size + 1, after a newline unless the store was empty |
| `Strings.TerminatedIsJoinedPlusNewline` | src/main/java/duke/tasks/Storage.java:159-165 | putting "\n" after every entry is the newline-joined text plus one final newline |
| `Strings.NatToString` | src/main/java/duke/tasks/Storage.java:108 | the decimal text of a number is a non-empty run of digits with no leading zero |
| `Strings.DigitsValueOfNatToString` | src/main/java/duke/tasks/Storage.java:108 | reading back the decimal text of a number gives the number |
| `Strings.NatToStringInjective` | src/main/java/duke/tasks/Storage.java:108 | different numbers have different decimal texts |
| `Tasks.WithCompletion` | src/main/java/duke/tasks/Storage.java:123 | complete()/uncomplete() set the flag and keep kind, description and renderings |
| `TaskStorage.SetCompleted` | src/main/java/duke/tasks/Storage.java:122-135 | marking sets the flag of task k only; length, order and every other task are unchanged |
| `TaskStorage.Storage.Mark` | src/main/java/duke/tasks/Storage.java:122-125 | for 1 <= i <= size, task i - 1 becomes completed and nothing else changes; the file shows the new listing |
| `TaskStorage.Storage.Unmark` | src/main/java/duke/tasks/Storage.java:132-135 | for 1 <= i <= size, task i - 1 becomes not completed and nothing else changes; the file shows the new listing |
| `TaskStorage.SetCompletedIdempotent` | src/main/java/duke/tasks/Storage.java:132-135 | marking or unmarking the same task twice gives the state of doing it once |
| `TaskStorage.RemoveAt` | src/main/java/duke/tasks/Storage.java:143 | removing position k keeps the tasks before k and moves each later task up one place; size drops by 1 |
| `TaskStorage.Storage.Delete` | src/main/java/duke/tasks/Storage.java:142-145 | for 1 <= i <= size, the new sequence is store[..i-1] + store[i..], one shorter; the file shows the new listing |
| `TaskStorage.RemoveAtRenumbers` | src/main/java/duke/tasks/Storage.java:142-145 | after a delete, every later task is listed one number lower |
| `Strings.ContainsIffOccurs` | src/main/java/duke/tasks/Storage.java:160 | the contains test holds exactly when the keyword occurs at some position of the description |
| `TaskStorage.Filter` | src/main/java/duke/tasks/Storage.java:159-163 | the matches are no more than the tasks and every one of them contains the keyword |
| `TaskStorage.FilterMembership` | src/main/java/duke/tasks/Storage.java:159-163 | a task is among the matches exactly when it is stored and its description contains the keyword |
| `TaskStorage.FilterAppend` | src/main/java/duke/tasks/Storage.java:159-163 | the matches of a concatenation are the matches of each part in turn, so matches keep store order |
| `TaskStorage.FilterEmptyKeyword` | src/main/java/duke/tasks/Storage.java:160 | the empty keyword matches every task |
| `Strings.Trim` | src/main/java/duke/tasks/Storage.java:165 | String.trim leaves no char at or below U+0020 at either end |
| `Strings.TrimStartRemovesOnlyWhitespace` | src/main/java/duke/tasks/Storage.java:165 | trimming the start removes only a prefix of chars at or below U+0020 |
| `Strings.TrimEndRemovesOnlyWhitespace` | src/main/java/duke/tasks/Storage.java:165 | trimming the end removes only a suffix of chars at or below U+0020 |
| `Strings.TrimDropsTrailing` | src/main/java/duke/tasks/Storage.java:165 | text that starts and ends with a visible char loses exactly the whitespace after it |
| `TaskStorage.Storage.Find` | src/main/java/duke/tasks/Storage.java:156-166 | the loop builds exactly the matches, renumbered from 1 among matches only, one per line, then trimmed |
| `TaskStorage.FindEmptyIff` | src/main/java/duke/tasks/Storage.java:156-166 | find gives "" exactly when no description contains the keyword |
| `TaskStorage.FindIsTrimmedListing` | src/main/java/duke/tasks/Storage.java:156-166 | for every store and keyword, find gives the listing of the matches alone, numbered from 1, put through String.trim |
| `Strings.TrimIgnoresTrailing` | src/main/java/duke/tasks/Storage.java:165 | the newline after the last match makes no difference to the trimmed result |
| `TaskStorage.FindIsListingOfMatches` | src/main/java/duke/tasks/Storage.java:156-166 | when the last match's display ends in a visible char, find gives the listing of the matches alone, with no trailing newline |
| `TaskStorage.Storage.Clear` | src/main/java/duke/tasks/Storage.java:170-173 | afterwards there are no tasks and the file is ""; on an empty, persisted store nothing changes |
| `TaskStorage.Storage.Size` | src/main/java/duke/tasks/Storage.java:180-182 | the number of stored tasks |
| `Strings.ParseInt` | src/test/java/duke/parsers/NumberCommandTest.java:57-61 | an accepted index text is a non-empty run of digits, or a '+' or '-' followed by one, and its value lies in the int range; a bare sign is rejected |
| `Strings.ParseIntOfNatToString` | src/test/java/duke/parsers/NumberCommandTest.java:30-55 | the decimal text of any int-sized natural number is accepted with that value |
| `Strings.ParseIntOfSignedNumeral` | src/test/java/duke/parsers/NumberCommandTest.java:30-61 | every numeral with an optional '+' or '-', leading zeros included, is read as its signed value when that is an int and rejected otherwise; with ParseInt's own contract this decides every index text |
| `NumberCommand.Validate` | src/test/java/duke/parsers/NumberCommandTest.java:51-61 | the numeric check comes first; a number is accepted exactly when it lies in 1..size |
| `NumberCommand.Apply` | src/test/java/duke/parsers/NumberCommandTest.java:30-49 | delete shortens the store by one; mark and unmark keep its length and set the flag of the named task |
| `NumberCommand.Execute` | src/test/java/duke/parsers/NumberCommandTest.java:30-61 | the new store and the reply are those of Outcome; the file is rewritten only when the index was accepted |
| `NumberCommand.RejectedIndexLeavesStore` | src/test/java/duke/parsers/NumberCommandTest.java:51-61 | a non-numeric or out-of-range index leaves the tasks unchanged |
| `NumberCommand.NumeralPrefixUnique` | src/test/java/duke/parsers/NumberCommandTest.java:30-49 | a number followed by a non-digit can be read back in one way only |
| `NumberCommand.RepliesAreDistinct` | src/test/java/duke/parsers/NumberCommandTest.java:30-61 | the non-numeric reply, the range reply and the confirmations are pairwise different |
| `NumberCommand.NotANumberIff` | src/test/java/duke/parsers/NumberCommandTest.java:57-61 | the reply is the non-numeric message exactly when the index text is not an int |
| `NumberCommand.OutOfRangeIff` | src/test/java/duke/parsers/NumberCommandTest.java:51-55 | the reply is "from 1 to N" exactly when the number lies outside 1..N |
| `NumberCommand.OutOfRangeNamesSize` | src/test/java/duke/parsers/NumberCommandTest.java:51-55 | the range reply names the store size N it was checked against |
| `NumberCommand.ConfirmationNamesOpAndIndex` | src/test/java/duke/parsers/NumberCommandTest.java:30-49 | a confirmation names its operation and its index |
| `NumberCommandTest.SetUp` | src/test/java/duke/parsers/NumberCommandTest.java:21-28 | clear followed by two todos leaves exactly those two tasks, in order, and the file shows them |
| `NumberCommandTest.ExecuteMarkValidTask` | src/test/java/duke/parsers/NumberCommandTest.java:30-34 | "1" with mark replies "marked 1 as completed" and the hint line; task 1 is now completed |
| `NumberCommandTest.ExecuteUnmarkValidTask` | src/test/java/duke/parsers/NumberCommandTest.java:36-43 | mark then unmark of "1" replies "marked 1 as uncompleted" and the hint line; task 1 is as before |
| `NumberCommandTest.ExecuteDeleteValidTask` | src/test/java/duke/parsers/NumberCommandTest.java:45-49 | "1" with delete replies "deleted 1" and the hint line; one task remains |
| `NumberCommandTest.ExecuteInvalidNumber` | src/test/java/duke/parsers/NumberCommandTest.java:51-55 | "10" with mark replies the range message "from 1 to 2"; the tasks are unchanged |
| `NumberCommandTest.ExecuteNonNumericInput` | src/test/java/duke/parsers/NumberCommandTest.java:57-61 | "abc" replies the non-numeric message; the tasks are unchanged |
| `DateParser.MonthAbbrev` | src/test/java/duke/parsers/DateParserTest.java:11 | month m is written as a three-letter abbreviation from a fixed table |
| `DateParser.GiveDate` | src/test/java/duke/parsers/DateParserTest.java:10-17 | a date is produced only from exactly three digit runs separated by '.' |
| `Strings.SplitJoinWith` | src/test/java/duke/parsers/DateParserTest.java:11 | splitting on '.' gives back the separator-free pieces that were joined with '.' |
| `Strings.JoinWithSplit` | src/test/java/duke/parsers/DateParserTest.java:11 | joining the pieces of a split with the separator gives the text back |
| `Strings.SplitCovers` | src/test/java/duke/parsers/DateParserTest.java:16 | every char other than the separator lies in one of the pieces |
| `DateParser.GiveDateOfNumerals` | src/test/java/duke/parsers/DateParserTest.java:11 | every "Y.M.D" of digit runs, leading zeros included, becomes "D Mon Y" with leading zeros dropped when the month is 1..12 and the day 1..31, and null otherwise |
| `DateParser.GiveDateIsDotted` | src/test/java/duke/parsers/DateParserTest.java:10-17 | every accepted text is three digit runs joined by '.', so GiveDateOfNumerals decides every input |
| `DateParser.GiveDateOfDotted` | src/test/java/duke/parsers/DateParserTest.java:11 | the dotted text of numbers written without leading zeros becomes "D Mon Y" with those same numbers |
| `DateParser.GiveDateOnlyDigitsAndDots` | src/test/java/duke/parsers/DateParserTest.java:16 | a date is recognised only in text made of digits and dots |
| `DateParser.GiveDateRejectsSlash` | src/test/java/duke/parsers/DateParserTest.java:16 | text with a '/' anywhere gives null, not a partial date |
| `DateParser.GiveDateExample` | src/test/java/duke/parsers/DateParserTest.java:11 | "2020.11.11" gives "11 Nov 2020" |
| `DateParser.GiveDateSlashExample` | src/test/java/duke/parsers/DateParserTest.java:16 | "2020/11.11" gives null |
| `DateParser.GiveDatePaddedExample` | src/test/java/duke/parsers/DateParserTest.java:11 | "2020.01.05" gives "5 Jan 2020" |
| `DateParser.GiveDateMonthOutOfRangeExample` | src/test/java/duke/parsers/DateParserTest.java:10-17 | "2020.13.01" gives null |

## Left out

- The file itself is not modelled: the path `./data/data.txt`, `Files.createDirectories`/`createFile`/`write`/`writeString`, `IOException` handling and the console messages. The ghost field `fileContents` stands for what the file holds, and a failed write is not modelled.
- Loading at start-up (`DataParser.readTasksFromFile`) is not part of this model. The constructor covers the case where no file exists: an empty store and an empty file.
- The `Todo`, `Event` and `Deadline` classes are not part of this model. That covers building a task from its text (the `/by`, `/from`, `/to` split and date fallback) and their display format. `Todo`, `Event` and `Deadline` take the task that constructor built, and a task's two renderings are opaque.
- Tasks are modelled as values. In the source the store holds references, but no other reference to a stored task exists, so updating in place and replacing the element are the same.
- The position counter `j` and `size()` are Java ints. The model does not model their overflow, which would need more than 2^31 - 1 tasks.
- `Strings.ParseInt`: accepts only ASCII digits, whereas `Integer.parseInt` also accepts other Unicode decimal digits.
- `DateParser.GiveDate`: only the two tested cases are the source's. Everything else (digits only, month 1..12, day 1..31 without a calendar check, leading zeros dropped) is this model's policy, because the source code of `DateParser` is not available.
- `NumberCommand.Execute`: the operation is a three-valued datatype. What the source does with another operation name is not known.
- The vacuous `thirdTest` of DateParserTest is not modelled. It asserts that `"2"` is not null and calls no code of the project.
- The JavaFX front end, its command/argument split and its scheduling are not modelled.
