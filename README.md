# Five console tools, modelled and verified in Dafny

This project models the logic beneath the console and file plumbing of five
small C# tools:

- **Warehouse** (`warehouse.dfy`). There are two id → item repositories, one for
  electronics and one for groceries.
  - `AddItem` refuses a duplicate id and `GetItemById`/`RemoveItem` report a
    missing id.
  - `UpdateQuantity` refuses a negative quantity before it looks the id up.
  - `SeedData` fills both repositories with two starter items each.
  - The three exception classes become the `Error` datatype, returned in an
    `Outcome` or `Result`.
  - Each repository is a class over a `map<int, Item>`. Every method that
    changes the map is proved against a pure step function of the map, and
    the read-only methods state their results directly.
- **Healthcare** (`healthcare.dfy`). A list-backed generic repository supports
  append, first match and remove-first-match. Prescriptions are grouped by
  patient id in list order, and new patients and prescriptions get count + 1
  ids.
- **School grading** (`grading.dfy`). It covers the score → letter grade bands
  and the per-line rules of reading a student file:
  - blank lines are passed over;
  - otherwise a line needs exactly three comma-separated fields, an integer id
    and an integer score;
  - bad lines are reported and do not stop the reading.
  The reading loop is proved against a recursive definition over the lines.
- **Inventory log** (`inventory_log.dfy`). An append-only log hands out
  copies. Loading a saved file replaces the log only with a non-empty list.
- **Finance** (`finance.dfy`). A plain account deducts every transaction, and a
  savings account refuses one larger than its balance. The entry point runs
  three transactions, ending at 574.50.

`option.dfy` holds the shared `Option` type.

Clock readings, console input and file contents are parameters of the model:
- a `today` day number for `DateTime.Now`;
- already-typed ids, names and quantities for the console prompts;
- `Option<seq<string>>` lines for the student file, and a `SavedFile` value for
  the JSON file.

## Model

| member | source | states |
|---|---|---|
| Warehouse.AddItemStep | WarehouseSystem/Program.cs:76-83 | A present id fails with DuplicateItem(id) and leaves the store unchanged. A fresh id is inserted: the keys gain exactly that id, the new entry is the item, the other entries are unchanged and the size grows by one. Filing by id is preserved. |
| Warehouse.GetItem | WarehouseSystem/Program.cs:85-92 | Succeeds exactly when the id is present. On success it returns the stored item, which carries that id. Otherwise it fails with ItemNotFound(id). |
| Warehouse.RemoveItemStep | WarehouseSystem/Program.cs:94-101 | An absent id fails with ItemNotFound and leaves the store unchanged. A present id loses exactly that key: the other entries are kept and the size drops by one. |
| Warehouse.UpdateQuantityStep | WarehouseSystem/Program.cs:105-113 | A negative quantity fails with InvalidQuantity first, even for an absent id. Otherwise an absent id fails with ItemNotFound. Otherwise only that item's quantity changes and the keys stay the same. Non-negative quantities and filing by id are preserved. |
| Warehouse.AddAll | WarehouseSystem/Program.cs:160-169 | A run of adds that stops at the first one that throws. It can only fail with DuplicateItem, and it keeps a store filed by id and of one category. |
| Warehouse.AddAllPair | WarehouseSystem/Program.cs:163-164 | Two sequential adds: the second runs only if the first succeeded. |
| Warehouse.AddTwiceKeepsFirst | WarehouseSystem/Program.cs:78-81 | A second add under a taken id fails with DuplicateItem, and the first item is still the one stored. |
| Warehouse.AddThenGet | WarehouseSystem/Program.cs:76-92 | After a successful add, GetItemById returns exactly the added item. |
| Warehouse.RemoveThenGet | WarehouseSystem/Program.cs:85-101 | After a successful remove, GetItemById reports ItemNotFound. |
| Warehouse.AddItemAcceptsNegativeQuantity | WarehouseSystem/Program.cs:76-83 | AddItem does not check the quantity, so a store can hold a negative quantity. Only UpdateQuantity guards against it. |
| Warehouse.Apply | WarehouseSystem/Program.cs:76-113 | Every repository operation keeps items filed under their own id, and a lookup changes nothing. |
| Warehouse.SizeAccounting | WarehouseSystem/Program.cs:76-113 | Over any history of operations, the final size is the initial size plus the successful adds minus the successful removes. |
| Warehouse.ReplayKeyedById | WarehouseSystem/Program.cs:74-113 | Any history of operations keeps every item filed under its own id. |
| Warehouse.FailedStepChangesNothing | WarehouseSystem/Program.cs:78-110 | Any operation that fails leaves the store as it was. |
| Warehouse.InventoryRepository.constructor | WarehouseSystem/Program.cs:74 | A new repository is empty. |
| Warehouse.InventoryRepository.AddItem | WarehouseSystem/Program.cs:76-83 | The outcome and new map are those of AddItemStep. The repository stays filed by id and holds its one category. |
| Warehouse.InventoryRepository.GetItemById | WarehouseSystem/Program.cs:85-92 | Returns GetItem of the map, and a found item has the requested id and the repository's category. |
| Warehouse.InventoryRepository.RemoveItem | WarehouseSystem/Program.cs:94-101 | The outcome and new map are those of RemoveItemStep. |
| Warehouse.InventoryRepository.GetAllItems | WarehouseSystem/Program.cs:103 | Returns one entry per stored item: the same count, every stored item listed, every listed item stored under its id, and no id twice. The order is left open. |
| Warehouse.InventoryRepository.UpdateQuantity | WarehouseSystem/Program.cs:105-113 | The outcome and new map are those of UpdateQuantityStep: the quantity is checked before the lookup. |
| Warehouse.SeedSteps | WarehouseSystem/Program.cs:160-169 | Seeding adds the electronics, then the groceries, and can fail only with DuplicateItem. |
| Warehouse.SeedFromEmpty | WarehouseSystem/Program.cs:160-169 | Seeding fresh repositories succeeds. Each repository then holds exactly its two starter items, under ids {1, 2}. |
| Warehouse.SeedTwiceFails | WarehouseSystem/Program.cs:163 | Seeding again fails with DuplicateItem(1) on the electronics. |
| Warehouse.WarehouseManager.Repo | WarehouseSystem/Program.cs:119-120 | Under the manager's invariant, the repository for a category is a valid repository that holds that category. |
| Warehouse.WarehouseManager.ReposDistinct | WarehouseSystem/Program.cs:119-120 | The electronics and groceries repositories are two different objects, each holding its own category. |
| Warehouse.WarehouseManager.constructor | WarehouseSystem/Program.cs:119-120 | Two distinct, empty repositories, one per category. |
| Warehouse.WarehouseManager.SeedData | WarehouseSystem/Program.cs:160-169 | The outcome and both new maps are those of SeedSteps. |
| Warehouse.WarehouseManager.AddItem | WarehouseSystem/Program.cs:204-220 | Routes to the category's repository with AddItemStep's effect. The other repository is unchanged. |
| Warehouse.WarehouseManager.UpdateQuantity | WarehouseSystem/Program.cs:246-253 | Routes to the category's repository with UpdateQuantityStep's effect. The other repository is unchanged. |
| Warehouse.WarehouseManager.RemoveItem | WarehouseSystem/Program.cs:277-284 | Routes to the category's repository with RemoveItemStep's effect. The other repository is unchanged. |
| Warehouse.WarehouseManager.ViewAllInventory | WarehouseSystem/Program.cs:171-184 | Lists exactly the stored electronics, then exactly the stored groceries, each with the right count. |
| Warehouse.CategoryScenario | WarehouseSystem/Program.cs:78-81 | On a fresh warehouse, id 1 is accepted once per category and a second electronics id 1 is refused. A negative update is refused and leaves the quantity at 10, and removing unknown id 99 is refused. |
| Healthcare.FirstIndex | HealthcareSystem/Program.cs:55 | The position of the first element satisfying the predicate. None exactly when no element does. |
| Healthcare.FirstMatch | HealthcareSystem/Program.cs:55 | FirstOrDefault: none exactly when no element matches. Otherwise a matching element with no match before it. |
| Healthcare.RemoveFirst | HealthcareSystem/Program.cs:60 | List.Remove: an absent element leaves the list as it is. A present one is removed at its first occurrence: the result is the list without the element at the first index that holds it, so the length drops by one. |
| Healthcare.RemoveFirstOfFirstMatch | HealthcareSystem/Program.cs:59-60 | Removing the first element equal to the first match removes the element at the first-match position. |
| Healthcare.Repository.constructor | HealthcareSystem/Program.cs:50 | A new repository is empty. |
| Healthcare.Repository.Add | HealthcareSystem/Program.cs:52 | Appends with no duplicate check: the length grows by one and the last element is the item. |
| Healthcare.Repository.GetById | HealthcareSystem/Program.cs:55 | Returns the first item satisfying the predicate, or none. |
| Healthcare.Repository.Remove | HealthcareSystem/Program.cs:57-61 | Returns true exactly when some item matches. If none matches, the list is unchanged. Otherwise exactly the first match is removed and the rest keep their order. |
| Healthcare.ForPatient | HealthcareSystem/Program.cs:124-129 | A patient's prescriptions, in list order: every element has that patient id. |
| Healthcare.ForPatientAppend | HealthcareSystem/Program.cs:197-199 | Appending a prescription extends its own patient's list by it and no other patient's list. |
| Healthcare.ForPatientEmpty | HealthcareSystem/Program.cs:124-129 | A patient's list is empty exactly when no prescription has that patient id. |
| Healthcare.GroupByPatient | HealthcareSystem/Program.cs:126-128 | GroupBy on the patient id, then ToDictionary. By GroupByPatientCorrect, a patient id is a key exactly when some prescription has it, and its list is that patient's prescriptions in list order, never empty. |
| Healthcare.GroupByPatientLists | HealthcareSystem/Program.cs:124-129 | Each grouped list is that patient's prescriptions and is non-empty. An id without a group has no prescriptions. |
| Healthcare.GroupByPatientCorrect | HealthcareSystem/Program.cs:124-129 | A patient id is a key exactly when some prescription has it, and its list is that patient's prescriptions in order. |
| Healthcare.HealthSystemApp.constructor | HealthcareSystem/Program.cs:67-69 | Two empty repositories and an empty map. |
| Healthcare.HealthSystemApp.SeedData | HealthcareSystem/Program.cs:110-122 | Appends the three starter patients and the four starter prescriptions. |
| Healthcare.HealthSystemApp.BuildPrescriptionMap | HealthcareSystem/Program.cs:124-129 | Afterwards a key is present exactly when some prescription has that patient id, with that patient's prescriptions in order. |
| Healthcare.HealthSystemApp.Start | HealthcareSystem/Program.cs:73-74 | After seeding and building, the map matches the lists and both lists have ids 1, 2, 3, ... |
| Healthcare.HealthSystemApp.AddNewPatient | HealthcareSystem/Program.cs:177-178 | The new patient's id is the previous count + 1. The patient is appended, and sequential ids stay sequential. |
| Healthcare.HealthSystemApp.AddNewPrescription | HealthcareSystem/Program.cs:197-199 | The new id is the previous count + 1 and the prescription is appended. The rebuilt map matches the list, and the patient's list is the old one plus the new prescription. |
| Healthcare.HealthSystemApp.ViewPatientPrescriptions | HealthcareSystem/Program.cs:145-156 | Finds a list exactly when the patient has prescriptions. The list is non-empty and holds exactly that patient's prescriptions. |
| Healthcare.CountPlusOneIsFresh | HealthcareSystem/Program.cs:177 | With sequential ids, count + 1 is not already in use. |
| Healthcare.CountPlusOneAfterRemoveCollides | HealthcareSystem/Program.cs:57-61 | After a removal, count + 1 can equal an id still in use. |
| Grading.GetGrade | SchoolGradingSystem/Program.cs:21-31 | Both directions for each band: 80..100 is A, 70..79 B, 60..69 C, 50..59 D. Everything else, including above 100 and negative, is F. |
| Grading.GradeMonotone | SchoolGradingSystem/Program.cs:23-30 | Within 0..100 a higher score never gets a lower grade. |
| Grading.IsBlank | SchoolGradingSystem/Program.cs:63 | string.IsNullOrWhiteSpace on a non-null line: every character is white space in the sense of char.IsWhiteSpace, which includes the Unicode space, line and paragraph separators. The empty line is blank. |
| Grading.TrimStart | SchoolGradingSystem/Program.cs:74 | Drops exactly the leading white space and keeps a suffix. |
| Grading.TrimEnd | SchoolGradingSystem/Program.cs:74 | Drops exactly the trailing white space and keeps a prefix. |
| Grading.Trim | SchoolGradingSystem/Program.cs:74 | The result has no white space at either end. It is empty exactly when the input is blank. |
| Grading.TrimIsSlice | SchoolGradingSystem/Program.cs:74 | The trim is a contiguous slice of the input, starting at TrimOffset. |
| Grading.TrimDropsBlankFront | SchoolGradingSystem/Program.cs:74 | Every character before the trim is white space. |
| Grading.TrimDropsBlankBack | SchoolGradingSystem/Program.cs:74 | Every character after the trim is white space. |
| Grading.TrimKeepsMiddle | SchoolGradingSystem/Program.cs:74 | The trim is the middle slice of the input, with only white space before and after it. With Trim's own contract (no white space at either end of the result), this says exactly what string.Trim drops. |
| Grading.TrimOfTrimmed | SchoolGradingSystem/Program.cs:88 | A string with no white space at either end is its own trim. |
| Grading.TrimIdempotent | SchoolGradingSystem/Program.cs:88 | Trimming twice is trimming once. |
| Grading.TrimStartAfterWhiteSpace | SchoolGradingSystem/Program.cs:88 | Leading blanks do not change the start-trim. |
| Grading.TrimAfterWhiteSpace | SchoolGradingSystem/Program.cs:88 | Leading blanks do not change the trim. |
| Grading.Split | SchoolGradingSystem/Program.cs:67 | At least one field, and no field contains the separator. |
| Grading.JoinSplit | SchoolGradingSystem/Program.cs:67 | The fields joined back with the separator are the line. |
| Grading.SplitPrefix | SchoolGradingSystem/Program.cs:67 | A non-separator character joins the first field. |
| Grading.SplitJoin | SchoolGradingSystem/Program.cs:67 | Fields without the separator come back out of split unchanged. |
| Grading.TryParseInt | SchoolGradingSystem/Program.cs:74-84 | Succeeds only within the 32-bit range, on an optional sign and digits. An empty string or a lone sign fails. |
| Grading.TryParseIntValue | SchoolGradingSystem/Program.cs:74-84 | On digits, '+' and digits, or '-' and digits, the result is the signed value of the digits when it fits in 32 bits and failure when it does not. Together with TryParseInt's contract this fixes the result on every input. |
| Grading.ShowNat | SchoolGradingSystem/Program.cs:129-133 | Renders a number as at least one decimal digit. |
| Grading.ShowNatValue | SchoolGradingSystem/Program.cs:129-133 | The rendered digits have the number's value. |
| Grading.ParseDigits | SchoolGradingSystem/Program.cs:74 | Unsigned digits within range parse to their value. |
| Grading.ParseNegatedDigits | SchoolGradingSystem/Program.cs:74 | A minus sign before digits parses to the negated value, down to the 32-bit minimum. |
| Grading.ParseShowInt | SchoolGradingSystem/Program.cs:74-84 | Every 32-bit integer parses back from its decimal rendering. |
| Grading.ParseLine | SchoolGradingSystem/Program.cs:62-89 | A line is Blank exactly when it is empty or made only of char.IsWhiteSpace characters. A non-blank line without exactly 3 fields gives MissingField(count). It gives InvalidIdFormat exactly when it has 3 fields and the trimmed id does not parse, before the score is looked at. It gives InvalidScoreFormat exactly when the id parses and the trimmed score does not. It is accepted exactly when it is non-blank, has 3 fields, and both id and score parse. An accepted line gives the parsed id, the trimmed middle field and the parsed score. |
| Grading.ShowIntShape | SchoolGradingSystem/Program.cs:129-133 | A rendered integer is non-empty, has no comma and has no white space at either end. |
| Grading.FormatLineFields | SchoolGradingSystem/Program.cs:129-133 | An "id, name, score" line splits into the three rendered fields and is not blank. |
| Grading.IdFieldReadsBack | SchoolGradingSystem/Program.cs:74 | A rendered id parses back to the id after trimming. |
| Grading.SpacedFieldReadsBack | SchoolGradingSystem/Program.cs:88 | A trimmed field written after ", " trims back to itself. |
| Grading.ScoreFieldReadsBack | SchoolGradingSystem/Program.cs:80 | A rendered score after ", " parses back to the score. |
| Grading.ParseFormatLine | SchoolGradingSystem/Program.cs:129-133 | A student written in the sample layout reads back as the same student. This holds when id and score fit in 32 bits and the name is trimmed and has no comma. |
| Grading.StudentsAppend | SchoolGradingSystem/Program.cs:59-97 | A bad line does not stop processing: the students of a file are those of its parts, in order. |
| Grading.StudentsOfLine | SchoolGradingSystem/Program.cs:86-96 | A single line contributes its student if accepted, and nothing otherwise. |
| Grading.SourceLineBeforeLast | SchoolGradingSystem/Program.cs:86-89 | A student read before the last line keeps its position and its source line when the last line is read. |
| Grading.SourceLineLast | SchoolGradingSystem/Program.cs:86-89 | A student past those of the earlier lines comes from the last line, which is accepted with that student. |
| Grading.StudentsFromAcceptedLines | SchoolGradingSystem/Program.cs:86-89 | The k-th student read comes from the line at SourceLine, which exists and is accepted with exactly that student. |
| Grading.BlankLineSkipped | SchoolGradingSystem/Program.cs:62-63 | A blank line adds neither a student nor a skipped-line report. |
| Grading.UnicodeSpaceLinesBlank | SchoolGradingSystem/Program.cs:63 | A line of U+3000 alone, or of space, U+2028, U+1680, tab and U+2009, is blank. |
| Grading.ZeroWidthSpaceLineRejected | SchoolGradingSystem/Program.cs:63-71 | A line holding only U+200B, which is not white space, is not blank and is rejected with MissingField(1). |
| Grading.NextLine | SchoolGradingSystem/Program.cs:61-96 | One more line adds its student if accepted, and its line number and error if rejected. |
| Grading.ReadStudentsFromFile | SchoolGradingSystem/Program.cs:51-105 | A missing file gives no students. Otherwise the result is the accepted students and the rejected lines (1-based number and error), in input order. |
| InventoryLog.AfterLoad | InventorySystem/Program.cs:51-79 | Replaces the log exactly when the file holds a non-null, non-empty list, and reports its count. Otherwise the log is kept: no file gives NoSavedData and a read error gives LoadError. |
| InventoryLog.SaveThenLoadRestores | InventorySystem/Program.cs:64-68 | Loading a non-empty saved list restores it, whatever the log held. |
| InventoryLog.SaveEmptyThenLoadKeeps | InventorySystem/Program.cs:70-73 | Loading an empty saved list keeps the current log. |
| InventoryLog.LoadIdempotent | InventorySystem/Program.cs:51-79 | Loading twice from the same file is loading once. |
| InventoryLog.InventoryLogger.constructor | InventorySystem/Program.cs:23-26 | An empty log with the given file path. |
| InventoryLog.InventoryLogger.Add | InventorySystem/Program.cs:28-31 | Appends the item to the end, duplicates included. |
| InventoryLog.InventoryLogger.GetAll | InventorySystem/Program.cs:34 | A copy equal to the current log. |
| InventoryLog.InventoryLogger.SaveToFile | InventorySystem/Program.cs:36-49 | The saved file holds the current log. Loading that file later restores the log when it was non-empty, and keeps the log current at load time when it was empty. |
| InventoryLog.InventoryLogger.LoadFromFile | InventorySystem/Program.cs:51-79 | The status and the new log are those of AfterLoad. |
| InventoryLog.SnapshotScenario | InventorySystem/Program.cs:28-34 | A snapshot taken before an add keeps its old contents, and an add under a duplicate id is accepted. A load of an empty saved list keeps the log. |
| Finance.Applied | FinanceManagementSystem/Program.cs:52-76 | The plain account deducts unconditionally. The savings account keeps the balance when the amount exceeds it and deducts otherwise, so it never goes below zero from a non-negative balance. |
| Finance.SavingsNeverNegative | FinanceManagementSystem/Program.cs:65-76 | A savings account that starts non-negative stays non-negative over any transactions. |
| Finance.PlainDeductsAll | FinanceManagementSystem/Program.cs:52-56 | A plain account ends at the start balance minus the sum of the amounts. |
| Finance.SavingsMatchesPlainWhenFunded | FinanceManagementSystem/Program.cs:65-76 | When every transaction fits the balance at its turn, savings and plain accounts end at the same balance. |
| Finance.Account.constructor | FinanceManagementSystem/Program.cs:46-50 | Sets the account number, which never changes afterwards, and the initial balance. |
| Finance.Account.ApplyTransaction | FinanceManagementSystem/Program.cs:52-76 | A plain account always deducts. A savings account deducts exactly when the amount does not exceed the balance, and is otherwise unchanged. |
| Finance.SampleSettles | FinanceManagementSystem/Program.cs:87-97 | 1000.00 minus 150.00, 75.50 and 200.00 on a savings account settles at 574.50, each step funded. |
| Finance.RunSample | FinanceManagementSystem/Program.cs:87-119 | The entry point's run on account "ACC-123456" ends at 574.50. |

## Left out

- Console menus, prompts, `int.Parse`/`DateTime.Parse` of typed input, every printed message and all `ToString` texts are left out. Operations take already-parsed arguments.
- The transaction processors are left out because they only print.
- The clock is left out: `DateTime.Now` is a `today` day number passed in, and dates are plain day numbers.
- Files and JSON: the student file arrives as `Option<seq<string>>` lines (None for a missing file), and the saved inventory arrives as a `SavedFile` value. The file writers (`WriteReportToFile`, `CreateSampleInputFile` and the file write in `SaveToFile`) are left out. Other I/O exceptions while reading the student file are also left out.
- Warehouse.InventoryRepository.GetAllItems: the order of the returned list is unspecified, because the dictionary does not promise an enumeration order.
- Warehouse.InventoryRepository.UpdateQuantity: in the tool, the stored item object is changed in place. An item returned earlier by `GetItemById` or `GetAllItems` also shows the new quantity. Items are values here, so that aliasing is not modelled.
- The warehouse menus take no action when the type choice is neither "1" nor "2". The model's `Category` has only the two categories, so that path is not modelled.
- Healthcare.Repository.Remove: `List.Remove` compares patients by reference, and the model compares values. Both remove the element at the first-match position.
- Healthcare.Repository.GetById: the null elements a C# list may hold are not modelled.
- Healthcare.Repository.GetAll: it returns the live list, but later changes through that reference are not modelled. Its result is simply the stored items, so it carries no contract of its own.
- Healthcare.HealthSystemApp.ViewPatientPrescriptions: the `int.TryParse` of the typed id is left out.
- Grading.TryParseInt: its own contract states the range and the accepted shape. The value of each well-formed field is the lemma TryParseIntValue. The function is a simplified `int.TryParse` under the current culture's default integer style. It accepts an optional `-`/`+` and ASCII digits within 32 bits. Culture-specific sign symbols are not modelled. .NET also accepts trailing NUL characters ("12\0"), which the model refuses. The field is already trimmed, so the white space that `int.TryParse` allows at either end does not arise.
- Grading.Trim: the function's own contract states only the shape of the result. That the result is the middle slice between blank ends is the lemma TrimKeepsMiddle, kept apart so that callers of Trim do not carry it.
- Grading.ReadStudentsFromFile: the 32-bit wrap-around of the line counter is not modelled, since it needs more than two billion lines. The reasons for skipped lines are returned as data instead of being printed.
- Finance: `decimal` amounts are whole cents, which is exact for every amount the tool uses. Fractions of a cent and decimal overflow are not modelled. Account and SavingsAccount are one class with an `AccountKind`, not a subclass.
