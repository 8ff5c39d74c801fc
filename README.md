# gouge core, modelled in Dafny

This project models the self-contained computations of the gouge Rails gem
and proves properties of them. Database access, Ruby reflection and the
spreadsheet library are replaced by values the caller passes in.

- **SHQL predicate engine.** An expression is a nested array whose element 0
  may be `AND` or `OR`; every other element is a leaf `"lhs op rhs"` or a
  nested array. `parse_json` compiles it to an SQL condition with its joins
  and selects. `evaluate_json` evaluates it to a boolean against a subject
  and an object.
  - `Shql` models `Gouge::Shql` (lib/gouge/shql.rb).
  - `ShqlLegacy` models the older top-level `Shql` (lib/gouge/shql/shql.rb).
    It checks no root, resolves only `subject.` right-hand paths, and guards
    against a nil subject.
  - `ShqlCommon` holds what both share: the expression tree, the tagged value
    type `send` works on, the quote-aware tokenizer, `Array#|`, `merge!`, the
    left-hand path compiler and the evaluate-mode path walk.
  - Each `each_with_index`, `reverse_each` and path loop is a method with a
    loop, proved equal to a function. The properties are lemmas about those
    functions.
- **Record locator** (`RecordLocator`). The 27-character alphabet without
  look-alikes, `encode` as a loop, `decode` as a positional fold, and the
  round trip.
- **Grid processor** (`GridProcessor`). The SELECT, quick-search WHERE,
  advanced-search WHERE and ORDER BY clause builders, and the `per_page` and
  `enable_paging` checks of `process_grid`.
- **Recurring events.**
  - `Recurrence` holds the occurrence generators, windowing, expansion into
    (from, thru) pairs, the in-place sort and the adjacent-pair conflict
    scan. Both concerns use it, since their generators are identical.
  - `RecurringEvent` is the hash-based concern (lib/gouge/recurring_event.rb).
  - `RecurringEventBase` is the concern over `Event` objects
    (lib/gouge/recurring_event/base.rb).
- **Sortable tree.**
  - `TreeTable` is the record table both concerns work on, held in memory.
  - `SortableTree` is the strict-bound `execute_movements` and
    `update_with_movement!` (lib/gouge/sortable_tree.rb).
  - `SortableTreeLegacy` is the inclusive-bound variant
    (lib/gouge/sortable_tree/sortable_tree.rb).
  - The tree is a class whose table field the movement methods update.
- **Boolean typecast** (`BooleanTypecast`). `to_bool` on strings, integers,
  booleans and nil, and `to_i` on booleans.
- **XLS layout.**
  - `XlsStyle`: `get_class_style` and its style constants.
  - `XlsSegment`: the segment class with its setters and its rows built from a
    processed grid.
  - `XlsComposer`: `consider_span` and `write_segments_into_sheet` over a
    worksheet class holding a cell map and a list of merged regions.
- `Wrappers` (Option, Result) and `RubyText` are support modules. They model
  no gouge file. `RubyText` holds the Ruby `String` behaviour the code relies
  on: `split`, `blank?`, `start_with?`, `upcase`, `downcase`, `to_i` and the
  rest. `blank?` counts every Unicode White_Space character, as
  ActiveSupport's `/\A[[:space:]]*\z/` does. `split(' ')` splits at ASCII
  whitespace, as Ruby does. `to_i` skips leading ASCII whitespace, a sign and
  a `0d` prefix, and reads digits with single underscores between them.
  `upcase` and `downcase` change ASCII letters only (see "Left out").

The model follows Ruby 2.4 and 2.5 with ActiveSupport 4.2 to 5.2. On those
versions `Fixnum` is an alias of `Integer`, so every integer has the
`to_bool` that `lib/gouge/core_ext/boolean_typecast.rb` defines, and a range
without an end raises `ArgumentError`. Integers are unbounded, as Ruby's are.

Each raise in the Ruby code is the `Err` branch of a `Result` that names the
exception.

Where the code and its documentation differ, the model follows the code:

- The leaf syntax check `(size != 3) && !%w(= IN).include?(tokens[1])` accepts
  any leaf whose second token is `=` or `IN`, whatever its token count. A
  two-token leaf then raises `NoMethodError` on `nil.start_with?`. A leaf with
  four or more tokens, the second being `=` or `IN`, passes the check, and only
  its first three tokens are used.
- `to_bool` matches its regular expressions line by line, as Ruby's `^` and
  `$` do. A multi-line string is true or false when any one of its lines
  matches. The `/i` flag folds case by Unicode rules, so the long s `ſ` and
  the Kelvin sign match `s` and `k` (`"yeſ".to_bool` is true).
- `XlsStyle.get_class_style` calls `const_defined?` with inherit true, so a
  class name also finds Object's constants and follows `::` paths. `"io"`
  finds the class `IO`, and merging it raises `TypeError`. `"env"` merges the
  process environment, and `"a::b"` is skipped. Object's constants are a
  parameter `globals` supplied by the caller.

## Model

| member | source | states |
|---|---|---|
| BooleanTypecast.StringToBool | lib/gouge/core_ext/boolean_typecast.rb:21-25 | true exactly when some line of the string is true/t/yes/y/1 in any case; otherwise false exactly when the string is blank or some line is false/f/no/n/0; otherwise ArgumentError with the message `invalid value for Boolean: "<s>"` |
| BooleanTypecast.IntegerToBool | lib/gouge/core_ext/boolean_typecast.rb:29-33 | converts exactly 0 and 1; 1 gives true and 0 false; every other integer raises with the invalid-value message |
| BooleanTypecast.BoolToI | lib/gouge/core_ext/boolean_typecast.rb:37-42 | `to_i` is 1 for true and 0 for false, and nothing else |
| BooleanTypecast.ToBool | lib/gouge/core_ext/boolean_typecast.rb:38-47 | `to_bool` is the identity on booleans and false on nil |
| BooleanTypecast.BoolIntRoundTrip | lib/gouge/core_ext/boolean_typecast.rb:29-44 | `b.to_i.to_bool == b` for both booleans |
| BooleanTypecast.IntBoolRoundTrip | lib/gouge/core_ext/boolean_typecast.rb:29-44 | `i.to_bool.to_i == i` for the two integers that convert |
| BooleanTypecast.SingleLineMatch | lib/gouge/core_ext/boolean_typecast.rb:22-23 | on a string without newlines, the line-anchored match is a whole-string case-insensitive match |
| BooleanTypecast.SingleLineToBool | lib/gouge/core_ext/boolean_typecast.rb:21-25 | on single-line input: true iff a true word, false iff not a true word and blank or a false word, ArgumentError iff neither word list nor blank |
| BooleanTypecast.UpperCaseTrue | lib/gouge/core_ext/boolean_typecast.rb:22 | example: "TRUE" converts to true (the `/i` flag) |
| BooleanTypecast.MixedCaseYes | lib/gouge/core_ext/boolean_typecast.rb:22 | example: "Yes" converts to true |
| BooleanTypecast.UpperCaseNo | lib/gouge/core_ext/boolean_typecast.rb:23 | example: "N" converts to false |
| BooleanTypecast.BlankIsFalse | lib/gouge/core_ext/boolean_typecast.rb:23 | example: the empty string, ASCII whitespace and a string of a no-break space and an ideographic space all convert to false, because `blank?` counts Unicode whitespace |
| BooleanTypecast.LongSFolds | lib/gouge/core_ext/boolean_typecast.rb:22 | example: "yeſ" converts to true, because `/i` folds the long s to `s` |
| BooleanTypecast.OtherWordRaises | lib/gouge/core_ext/boolean_typecast.rb:24 | example: "maybe" raises ArgumentError with the exact message |
| BooleanTypecast.LineAnchors | lib/gouge/core_ext/boolean_typecast.rb:22-23 | a false word on one line followed by a true word on the next converts to true, because the true test runs first and `^…$` match per line |
| RecordLocator.AlphabetDerived | lib/gouge/record_locator.rb:30-32 | the alphabet is exactly the digits and capitals minus B8S5O0I1Q, in ascending order: every kept character is a digit or letter and no look-alike, and every dropped one is a look-alike |
| RecordLocator.KeptCharacters | lib/gouge/record_locator.rb:32 | every alphabet character is a digit or capital letter and not one of B8S5O0I1Q |
| RecordLocator.KeptAreDigitsOrLetters | lib/gouge/record_locator.rb:32 | every alphabet character comes from `'0'..'9'` or `'A'..'Z'` |
| RecordLocator.KeptAreNoLookAlikes | lib/gouge/record_locator.rb:32 | no alphabet character is one of B8S5O0I1Q |
| RecordLocator.DroppedCharacters | lib/gouge/record_locator.rb:32 | a digit or capital letter missing from the alphabet is one of the look-alikes |
| RecordLocator.AlphabetIsRing | lib/gouge/record_locator.rb:30-50 | the alphabet has 27 characters, pairwise distinct, so the base is 27 |
| RecordLocator.DecodeDigit | lib/gouge/record_locator.rb:26-28 | the DECODER table maps a character to an index holding that character, and has no entry exactly for characters outside the alphabet |
| RecordLocator.DigitRoundTrip | lib/gouge/record_locator.rb:22-28 | on a ring without repeats, DECODER inverts ENCODER on every digit |
| RecordLocator.Encode | lib/gouge/record_locator.rb:35-44 | the `until` loop that emits `value % 27` digits and divides by 27 terminates for every n >= 0 and returns the most-significant-first numeral of n |
| RecordLocator.DecodeFrom | lib/gouge/record_locator.rb:51-53 | the `inject` fold yields a number or fails, never returns the input unchanged |
| RecordLocator.Decode | lib/gouge/record_locator.rb:46-54 | the input is returned unchanged exactly when it contains a '0' or '1' |
| RecordLocator.DecodeFromValue | lib/gouge/record_locator.rb:51-53 | from reversed position pos with running sum, the fold adds 27^pos times the positional value of the unread prefix |
| RecordLocator.DecodeFromFails | lib/gouge/record_locator.rb:51-53 | a character without a DECODER entry makes `nil * base**i` fail once the fold reaches it |
| RecordLocator.NumeralInRing | lib/gouge/record_locator.rb:39-43 | every character of `encode(n)` is a ring character |
| RecordLocator.PositionalStep | lib/gouge/record_locator.rb:51-53 | appending digit d to a numeral multiplies its value by 27 and adds d |
| RecordLocator.NumeralValue | lib/gouge/record_locator.rb:35-44 | the numeral `encode` builds reads back positionally as n |
| RecordLocator.NumeralLeadingDigit | lib/gouge/record_locator.rb:39-43 | for n > 0 the numeral is non-empty and its first character is not the zero digit |
| RecordLocator.DecodeFromWhole | lib/gouge/record_locator.rb:51-53 | the fold over a whole alphabet string is its positional value |
| RecordLocator.NoLookAlikes | lib/gouge/record_locator.rb:48 | an alphabet string contains neither '0' nor '1', so the early return never fires on it |
| RecordLocator.DecodeIsPositional | lib/gouge/record_locator.rb:46-54 | `decode` reads an alphabet string in base 27, the last character weighted 27^0 |
| RecordLocator.DecodeFailsOutsideAlphabet | lib/gouge/record_locator.rb:48-53 | a character outside the alphabet makes `decode` fail unless a '0' or '1' returned the input first |
| RecordLocator.EncodeShape | lib/gouge/record_locator.rb:39-43 | for n > 0, `encode(n)` uses only alphabet characters and does not start with '2' |
| RecordLocator.RoundTrip | lib/gouge/record_locator.rb:35-54 | `decode(encode(n)) == n` for every n >= 0; `encode(0)` is "" and `decode("")` is 0 |
| GridProcessor.Get | lib/gouge/grid_processor.rb:195 | a key present in the hash reads as the value of its first entry; a key absent from the hash reads as nil |
| GridProcessor.FieldToFqn | lib/gouge/grid_processor.rb:194-196 | the looked-up SQL expression when the key maps to a non-nil value, else the field unchanged |
| GridProcessor.ColumnFields | lib/gouge/grid_processor.rb:209 | the column definitions' fields, one per definition, in order (also line 244) |
| GridProcessor.ColumnItems | lib/gouge/grid_processor.rb:203-205 | one SELECT item per column definition |
| GridProcessor.ProcessSelect | lib/gouge/grid_processor.rb:198-223 | the loops that push onto `array` produce the column items, then the extra lookup items, or `<table>.id` when both are empty, joined with ", " |
| GridProcessor.ColumnItemAt | lib/gouge/grid_processor.rb:204 | the i-th column item is `"<fqn> AS <field>"` for the i-th column |
| GridProcessor.ExtraItemsExactly | lib/gouge/grid_processor.rb:209-211 | the extra items are exactly `"<lookup[k]> AS <k>"` for the lookup keys that are not column fields |
| GridProcessor.SelectShape | lib/gouge/grid_processor.rb:203-220 | the SELECT list starts with one `fqn AS field` per column in order; it is `<table>.id` alone when there are no columns and no lookup keys; otherwise columns then extras |
| GridProcessor.ProcessWhere | lib/gouge/grid_processor.rb:225-238 | the loop pushes one LIKE clause per flagged column, using the raw field when `use_alias` is set, joined with " OR " |
| GridProcessor.WhereItemsExactly | lib/gouge/grid_processor.rb:227-235 | the quick-search clauses are exactly the clauses of the columns whose `traversed_by_q` is true |
| GridProcessor.NoFlaggedColumns | lib/gouge/grid_processor.rb:227-237 | with no flagged column the clause list is empty |
| GridProcessor.Quoted | lib/gouge/grid_processor.rb:307 | quoting the list values keeps their number |
| GridProcessor.AdvancedStep | lib/gouge/grid_processor.rb:248-310 | one more filter entry appends that entry's clause (if any) to the clauses so far, unless either raises |
| GridProcessor.ProcessAdvancedSearch | lib/gouge/grid_processor.rb:240-315 | the loop over the filter entries yields the clauses of the reference fold joined with " AND ", or the first error |
| GridProcessor.AdvancedErrorSticks | lib/gouge/grid_processor.rb:248-310 | once an entry raises, the whole advanced search raises that error |
| GridProcessor.KeySplitRoundTrip | lib/gouge/grid_processor.rb:252-254 | a key `field_expr` splits at its last underscore back into field and operator, whatever underscores the field holds |
| GridProcessor.SkippedEntry | lib/gouge/grid_processor.rb:244-257 | an entry whose field is neither a column field nor a lookup key, or whose value is blank, adds no clause |
| GridProcessor.IsNullClause | lib/gouge/grid_processor.rb:299-304 | `isnull` gives IS NULL exactly for 1/true/'true'/'TRUE'/'True', IS NOT NULL exactly for 0/false/'false'/'FALSE'/'False', and nothing otherwise |
| GridProcessor.InClause | lib/gouge/grid_processor.rb:306-307 | `in` over a list gives `fqn IN ('a', 'b')`; any other value raises NoMethodError for `join` |
| GridProcessor.ComparisonClause | lib/gouge/grid_processor.rb:266-275 | eq/lt/lteq/gt/gteq give `fqn <op> v` with v unquoted |
| GridProcessor.UnknownOperator | lib/gouge/grid_processor.rb:260-308 | an operator suffix outside the `case` adds nothing |
| GridProcessor.OrderItems | lib/gouge/grid_processor.rb:326-328 | one `fqn dir` item per field |
| GridProcessor.ProcessOrder | lib/gouge/grid_processor.rb:317-331 | raises exactly when the field and direction counts differ (a missing list counts as empty); otherwise the `fqn dir` pairs in order joined with "," |
| GridProcessor.DefaultOrder | lib/gouge/grid_processor.rb:24 | the default sort info orders by `created_at DESC` when the lookup does not rename `created_at` (also lines 317-331) |
| GridProcessor.GridPaging | lib/gouge/grid_processor.rb:47-71 | raises exactly when `per_page.to_i` is outside {10,20,25,50,100,200}; with paging disabled it is page 1 of all records, otherwise the given or default page and size (also lines 99-109) |
| GridProcessor.DefaultPaging | lib/gouge/grid_processor.rb:22-23 | example: with no options the grid shows page 1 of 10 records (also lines 47-48) |
| GridProcessor.BooleanFalseKeepsPaging | lib/gouge/grid_processor.rb:50-60 | example: a boolean false for `enable_paging` is replaced by the default true, so paging stays on |
| GridProcessor.TruePerPageRefused | lib/gouge/grid_processor.rb:48-71 | example: `per_page: true` reads as 1 through `true.to_i` and is refused |
| GridProcessor.UnderscoredPerPageAccepted | lib/gouge/grid_processor.rb:66-71 | example: `per_page: "2_0"` reads as 20 through `String#to_i`, which skips a single underscore between digits, and is accepted |
| GridProcessor.InvalidPerPageRefusedWithoutPaging | lib/gouge/grid_processor.rb:60-71 | a page size outside the list is refused even when paging is off |
| GridProcessor.ProcessGridWhere | lib/gouge/grid_processor.rb:82-86 | the advanced search when `filter_params` is given, else the quick search without aliases |
| Recurrence.NoRecurrenceDates | lib/gouge/recurring_event.rb:168-174 | `[frt]` exactly when `lfe <= frt <= rge` (a nil right edge is the end of `from_time`'s day), and `[]` exactly otherwise |
| Recurrence.StepDates | lib/gouge/recurring_event.rb:179-186 | the loop that appends `cis` when `lfe <= cis` and advances by the step returns the reference progression |
| Recurrence.NthShift | lib/gouge/recurring_event.rb:182 | the k+1-th term from `start` is the k-th term from `start + step` |
| Recurrence.StepsSound | lib/gouge/recurring_event.rb:182-184 | everything the stepped range yields lies in `[lfe, rge]`, is at least `frt`, and is `frt + k*step` for some k >= 0 |
| Recurrence.StepsComplete | lib/gouge/recurring_event.rb:182-184 | every term `frt + k*step` inside `[lfe, rge]` is yielded |
| Recurrence.NthAtLeastStart | lib/gouge/recurring_event.rb:182 | with a positive step no term lies before the start |
| Recurrence.StepsAscending | lib/gouge/recurring_event.rb:182-184 | the yielded values are strictly ascending |
| Recurrence.StepsExactly | lib/gouge/recurring_event.rb:179-198 | the every-N generators yield, ascending, exactly the terms `frt + k*step` inside `[lfe, rge]` |
| Recurrence.NoRecurrenceIsOneStep | lib/gouge/recurring_event.rb:168-186 | a single occurrence equals a progression whose second term already lies past the window |
| Recurrence.EveryNDates | lib/gouge/recurring_event.rb:179-198 | `(frt..rge).step(n)` raises exactly when the right edge is nil or the step is not positive |
| Recurrence.WeekDays | lib/gouge/recurring_event.rb:232 | one weekday number per comma-separated field, each read by `String#to_i` (blanks, sign, `0d` prefix and single underscores between digits included) |
| Recurrence.FirstCandidateWeekday | lib/gouge/recurring_event.rb:237 | the first candidate is `frt` plus 0 to 6 whole days and falls on the requested weekday |
| Recurrence.DaysOfWeekDates | lib/gouge/recurring_event.rb:231-244 | the nested loops return, for each listed weekday in list order, its weekly progression from the first candidate inside the window |
| Recurrence.DaysOfWeekSound | lib/gouge/recurring_event.rb:235-242 | every emitted value lies in `[lfe, rge]` and is a weekly step from the first candidate of some listed weekday |
| Recurrence.DaysOfWeekComplete | lib/gouge/recurring_event.rb:235-242 | every weekly candidate of every listed weekday inside the window is emitted |
| Recurrence.FetchEventsTime | lib/gouge/recurring_event.rb:142-162 | dispatches on the recurrence type to the matching generator, with the month and year dates supplied by the caller, ArgumentError from their `cis > rge` when the right edge is nil, and `[]` for an unknown type |
| Recurrence.OpenEndedCalendarRaises | lib/gouge/recurring_event.rb:203-226 | a month or year schedule without a right edge raises ArgumentError `comparison of Integer with nil failed` |
| Recurrence.UnknownTypeHasNoOccurrences | lib/gouge/recurring_event.rb:159-160 | a recurrence type outside the six known ones yields no occurrences |
| Recurrence.EveryNDaysExactly | lib/gouge/recurring_event.rb:179-186 | a positive day interval yields exactly the in-window days `frt + k*interval*86400` (also lines 149-150) |
| Recurrence.EveryNWeeksExactly | lib/gouge/recurring_event.rb:191-198 | a positive week interval yields exactly the in-window values `frt + k*interval*604800` (also lines 151-152) |
| Recurrence.NonPositiveIntervalRaises | lib/gouge/recurring_event.rb:180-182 | a day interval of zero or less is refused by `Range#step` with ArgumentError |
| Recurrence.EventsWindow | lib/gouge/recurring_event.rb:114-122 | the left edge is the requested day start, else `from_time`'s; the right edge is nil exactly when neither end is given, and otherwise the smaller of the day before the requested end and the end of `recurrence_end`'s day |
| Recurrence.ExpandedSound | lib/gouge/recurring_event.rb:125-134 | every expanded event lasts `duration`, starts at an occurrence plus the hour and minute offset, and its start is not filtered out |
| Recurrence.ExpandedComplete | lib/gouge/recurring_event.rb:125-134 | every occurrence whose start is not filtered out gives an event of length `duration` |
| Recurrence.ExpandedUnfiltered | lib/gouge/recurring_event.rb:131 | an empty filter keeps one event per occurrence |
| Recurrence.SortBy | lib/gouge/recurring_event.rb:48 | `sort!` leaves the events ordered by start time and a permutation of the input |
| Recurrence.InsertLast | lib/gouge/recurring_event.rb:48 | one insertion step extends the sorted prefix and keeps the multiset of events |
| Recurrence.Swap | lib/gouge/recurring_event.rb:48 | exchanging two events keeps the multiset |
| Recurrence.Conflicts | lib/gouge/recurring_event.rb:49-65 | at most n−1 conflicts for n events |
| Recurrence.AdjacentConflicts | lib/gouge/recurring_event.rb:49-67 | the scan over neighbouring pairs returns the reference conflict list |
| Recurrence.ConflictsExactly | lib/gouge/recurring_event.rb:50-63 | every reported conflict comes from an adjacent pair with `thru_i > from_{i+1}`, windowed `[from_{i+1}, min(thru_i, thru_{i+1})]`, and every such pair is reported |
| Recurrence.ConflictWindowsInside | lib/gouge/recurring_event.rb:52-54 | for events that do not end before they start, each conflict window is non-empty and lies inside both events |
| Recurrence.TypeErrorsExactly | lib/gouge/recurring_event.rb:38-40 | the type validations pass exactly when the type is one of the six `RECURRENCE_TYPES` |
| Recurrence.ConditionalErrorsExactly | lib/gouge/recurring_event.rb:250-255 | the conditional validations pass exactly when `recurrence_end` is set unless the type is NO_RECURRENCE, and each interval field is set when its type is selected |
| RecurringEvent.Hashes | lib/gouge/recurring_event.rb:70-76 | one `event_to_hash` per (from, thru) pair, carrying the schedule's object |
| RecurringEvent.Events | lib/gouge/recurring_event.rb:112-137 | `events` returns the generator's error, or one hash per occurrence whose start is not filtered out, with the window computed from the requested bounds |
| RecurringEvent.ConflictHashes | lib/gouge/recurring_event.rb:55-62 | one conflict hash per window, carrying both event ids and the window bounds |
| RecurringEvent.FindConflictedEvents | lib/gouge/recurring_event.rb:46-68 | the array is sorted in place by start (a permutation of the input) and the result is the adjacent-pair conflict list of the sorted events |
| RecurringEvent.ConflictCount | lib/gouge/recurring_event.rb:49-65 | at most n−1 conflicts are reported |
| RecurringEvent.OnlyNeighboursCompared | lib/gouge/recurring_event.rb:50-52 | example: an event overlapping the one after its neighbour is not reported when the neighbour itself does not overlap it |
| RecurringEvent.ValidationErrorsExactly | lib/gouge/recurring_event.rb:37-41 | the record is valid exactly when the type is known, the end is set unless it does not recur, and the chosen type's interval is given (also lines 248-256) |
| RecurringEventBase.Event.constructor | lib/gouge/recurring_event/base.rb:152 | an event holds the schedule and the given from and thru seconds |
| RecurringEventBase.Events | lib/gouge/recurring_event/base.rb:128-157 | the generator's error, or one fresh `Event` per occurrence whose start is not filtered out, in order |
| RecurringEventBase.FindConflictedEvents | lib/gouge/recurring_event/base.rb:58-86 | sorts the events in place by start (a permutation) and reports the adjacent overlapping pairs with both event objects |
| RecurringEventBase.SortedConflictsStartInsideFirst | lib/gouge/recurring_event/base.rb:66-71 | each conflict window is non-empty and starts before the first event ends |
| RecurringEventBase.ValidationErrorsExactly | lib/gouge/recurring_event/base.rb:41-51 | the record is valid exactly when the type is known, the end is set unless it does not recur, and the chosen type's interval is given |
| RecurringEventBase.SameErrorsEitherConcern | lib/gouge/recurring_event/base.rb:41-51 | both concerns report the same errors (as a multiset) and agree on validity; only the order differs |
| RecurringEventBase.MissingTypeErrors | lib/gouge/recurring_event/base.rb:42-45 | a record with no type and no end gets the blank and inclusion errors on the type and the blank error on the end |
| TreeTable.MovementError | lib/gouge/sortable_tree.rb:53-66 | a movement raises RecordNotFound for an unknown id, then RecordNotFound for an unknown new parent (ancestry's `parent_id=`), then RecordInvalid when the new parent is the item itself or below it (ancestry's exclude-self validation), and raises nothing exactly otherwise (also lines 127-128) |
| TreeTable.UnderItselfRefused | lib/gouge/sortable_tree.rb:65-66 | moving a record under itself is refused with RecordInvalid |
| TreeTable.UnderDescendantRefused | lib/gouge/sortable_tree.rb:65-66 | moving a record under its child or its grandchild is refused with RecordInvalid |
| TreeTable.ShiftSeqs | lib/gouge/sortable_tree.rb:101-104 | the loop that updates each selected sibling on its own adds the delta to exactly the selected records, keeps every other record, and adds or removes no rows |
| SortableTree.StepMatchesDelta | lib/gouge/sortable_tree.rb:53-123 | after a sequenced movement the item has the destination parent and `dest_seq`; within one parent, siblings strictly between src and dest move one place towards src; on a parent change, old siblings after src move down and new siblings after dest move up; every other record keeps its values |
| SortableTree.UnsequencedOnlyReparents | lib/gouge/sortable_tree.rb:125-130 | without a sequence column a movement only sets the item's `parent_id` |
| SortableTree.UninvolvedUnchanged | lib/gouge/sortable_tree.rb:71-120 | a record that is a sibling of neither the old nor the new position is unchanged |
| SortableTree.StrictBoundsCollide | lib/gouge/sortable_tree.rb:74-75 | with four roots numbered 0 to 3, moving the first to position 2 leaves it sharing 2 with the third, so the renumbering is not dense (also lines 80-84 and 123) |
| SortableTree.MoveAmongSiblings | lib/gouge/sortable_tree.rb:64-123 | the placeholder update, the shift of the strictly-between siblings and the final update together equal the reference step |
| SortableTree.MoveToOtherParent | lib/gouge/sortable_tree.rb:64-123 | the placeholder update, the two shift loops and the final update together equal the reference step |
| SortableTree.Tree.constructor | lib/gouge/sortable_tree.rb:160-165 | a tree over the given records, with or without a sequence column |
| SortableTree.Tree.ApplyMovement | lib/gouge/sortable_tree.rb:52-129 | one movement on an existing record changes the table as the reference step says |
| SortableTree.Tree.ExecuteMovements | lib/gouge/sortable_tree.rb:49-132 | movements apply in list order; the first movement that raises (unknown id or parent, or a parent at or below the item) gives that error and the transaction leaves the table unchanged |
| SortableTree.Tree.UpdateWithMovement | lib/gouge/sortable_tree.rb:135-156 | nothing moves when the parent is unchanged; a missing parent raises RecordNotFound and a parent at or below the record raises RecordInvalid, both without changing the table; otherwise the record moves to `dest_seq` = the new parent's children count (or the roots count) |
| SortableTreeLegacy.StepMatchesDelta | lib/gouge/sortable_tree/sortable_tree.rb:52-105 | after a sequenced movement the item has the destination parent and `dst_idx`; same-parent siblings with values in the inclusive range move one place towards the origin; on a parent change, old siblings at or after ori move down and new siblings at or after dst move up; everything else is unchanged |
| SortableTreeLegacy.StepKeepsDense | lib/gouge/sortable_tree/sortable_tree.rb:52-105 | a movement to a position that exists at the destination keeps every parent's children numbered 0 .. count−1, each value once |
| SortableTreeLegacy.OtherParentDense | lib/gouge/sortable_tree/sortable_tree.rb:68-101 | a parent that is neither origin nor destination keeps dense numbering |
| SortableTreeLegacy.ChildrenMoved | lib/gouge/sortable_tree/sortable_tree.rb:64-66 | after a movement the destination's children gain the item and every other parent's children lose it |
| SortableTreeLegacy.SameParentDense | lib/gouge/sortable_tree/sortable_tree.rb:68-82 | a move within one parent to an existing position keeps that parent's numbering dense |
| SortableTreeLegacy.OriginDense | lib/gouge/sortable_tree/sortable_tree.rb:87-92 | the old parent's children close the gap and stay dense |
| SortableTreeLegacy.DestinationDense | lib/gouge/sortable_tree/sortable_tree.rb:94-100 | the new parent's children open a gap at dst and stay dense with the item in it |
| SortableTreeLegacy.EndOfChildrenKeepsDense | lib/gouge/sortable_tree/sortable_tree.rb:127-133 | moving a record to the end of another parent's children, or of the roots, keeps the numbering dense |
| SortableTreeLegacy.MoveAmongSiblings | lib/gouge/sortable_tree/sortable_tree.rb:63-105 | the placeholder save, the inclusive-range shift and the final save together equal the reference step |
| SortableTreeLegacy.MoveToOtherParent | lib/gouge/sortable_tree/sortable_tree.rb:63-105 | the placeholder save, the two shift loops and the final save together equal the reference step |
| SortableTreeLegacy.Tree.constructor | lib/gouge/sortable_tree/sortable_tree.rb:141-146 | a tree over the given records; `sequence` defaults to false |
| SortableTreeLegacy.Tree.ApplyMovement | lib/gouge/sortable_tree/sortable_tree.rb:51-112 | one movement on an existing record changes the table as the reference step says, or only reassigns the parent without a sequence column |
| SortableTreeLegacy.Tree.ExecuteMovements | lib/gouge/sortable_tree/sortable_tree.rb:48-115 | movements apply in list order; the first movement that raises (unknown id, ancestry's lookup of an unknown parent, or a parent at or below the item) gives that error and leaves the table unchanged |
| SortableTreeLegacy.Tree.UpdateWithMovement | lib/gouge/sortable_tree/sortable_tree.rb:121-137 | nothing moves when the parent is unchanged; an unknown parent falls back to the roots count and then raises RecordNotFound in the movement, and a parent at or below the record raises RecordInvalid, both without changing the table; otherwise the record moves to the end of the new parent's children |
| SortableTreeLegacy.EndOf | lib/gouge/sortable_tree/sortable_tree.rb:131 | the destination counts the new parent's children when the parent exists and the roots otherwise |
| XlsStyle.UpcaseAll | lib/gouge/reports/xls/xls_style.rb:30 | each class name upcased, in order |
| XlsStyle.Select | lib/gouge/reports/xls/xls_style.rb:31 | the `select` stage raises exactly when some name makes `const_defined?` raise |
| XlsStyle.SelectExactly | lib/gouge/reports/xls/xls_style.rb:31-32 | the error raised is the one of the first name that raises; otherwise the values kept are at most one per name, each the `const_get` value of one of the names |
| XlsStyle.PlainName | lib/gouge/reports/xls/xls_style.rb:31 | a name without `::` raises NameError `wrong constant name <name>` when it is not a constant name; otherwise it finds XlsStyle's own constant of that name, else Object's, else nothing |
| XlsStyle.UndefinedPathSkipped | lib/gouge/reports/xls/xls_style.rb:31 | a path `A::B` is not defined when A is defined neither in XlsStyle nor in Object, whatever B is |
| XlsStyle.NonModulePathRaises | lib/gouge/reports/xls/xls_style.rb:31 | a path `A::B` through a constant A that is not a class or module raises TypeError `A::B does not refer to class/module` |
| XlsStyle.UndefinedPathIgnored | lib/gouge/reports/xls/xls_style.rb:29-32 | a class name such as `a::b` whose first segment names no constant is skipped, so it has the empty style |
| XlsStyle.MergeAllExactly | lib/gouge/reports/xls/xls_style.rb:32 | when every value found is a hash, `inject` merges their entries in order; otherwise it raises TypeError `no implicit conversion of <X> into Hash` for the first value that is not a hash |
| XlsStyle.MergeAllFromMemo | lib/gouge/reports/xls/xls_style.rb:32 | merging onto a memo raises the same error as merging onto `{}`, and otherwise gives the memo overridden by that merge |
| XlsStyle.MergeAllAppend | lib/gouge/reports/xls/xls_style.rb:32 | merging two lists of values is merging the first, then the second onto its result, stopping at the first TypeError |
| XlsStyle.EmptyClasses | lib/gouge/reports/xls/xls_style.rb:28-32 | nil, the empty string and the empty array yield the empty style, whatever Object defines |
| XlsStyle.MergeAppend | lib/gouge/reports/xls/xls_style.rb:32 | merging two lists of styles is merging the first, then the second |
| XlsStyle.MergeFromMemo | lib/gouge/reports/xls/xls_style.rb:32 | what was merged before is overridden key by key by what is merged later |
| XlsStyle.LaterStyleWins | lib/gouge/reports/xls/xls_style.rb:32 | a key takes its value from the last style that has it |
| XlsStyle.MergeKeys | lib/gouge/reports/xls/xls_style.rb:32 | a key no style has stays out of the merged style |
| XlsStyle.SelectAppend | lib/gouge/reports/xls/xls_style.rb:31 | selecting over two lists is selecting over each, with the first error winning |
| XlsStyle.UpcaseAllAppend | lib/gouge/reports/xls/xls_style.rb:30 | upcasing distributes over concatenation |
| XlsStyle.PairIsCombined | lib/gouge/reports/xls/xls_style.rb:23-32 | styling `[a, b]` raises the first `const_defined?` error among a's names, then among b's; otherwise it is the styles of a and b merged left to right, the first TypeError winning and b overriding a |
| XlsStyle.NamesOfPair | lib/gouge/reports/xls/xls_style.rb:29-30 | the class names of `[a, b]` are those of a followed by those of b |
| XlsStyle.NamesAppend | lib/gouge/reports/xls/xls_style.rb:31-32 | styling two name lists in a row raises the first `const_defined?` error of either, else combines their styles |
| XlsStyle.CaseInsensitive | lib/gouge/reports/xls/xls_style.rb:30 | a single class name styles the same whatever its ASCII case |
| XlsStyle.UnknownClassIgnored | lib/gouge/reports/xls/xls_style.rb:31 | a class name that names no constant, neither XlsStyle's nor Object's, is skipped |
| XlsStyle.UnknownNameIgnored | lib/gouge/reports/xls/xls_style.rb:31 | an upcased name that names no constant contributes nothing |
| XlsStyle.BadNameRaises | lib/gouge/reports/xls/xls_style.rb:31 | `a-b` raises NameError `wrong constant name A-B`, whatever Object defines |
| XlsStyle.ObjectConstant | lib/gouge/reports/xls/xls_style.rb:31-32 | a class name that upcases to a constant of Object and not of XlsStyle: a hash value, or ENV, merges its entries; any other value, such as the class IO for `io`, raises TypeError naming its class |
| XlsStyle.SingleName | lib/gouge/reports/xls/xls_style.rb:23-32 | a string or symbol whose upcased name finds a hash yields that hash |
| XlsStyle.OwnStyle | lib/gouge/reports/xls/xls_style.rb:31-46 | a class name that upcases to TABLE_HEADING, CENTER or CURRENCY yields that constant's hash, whatever Object defines |
| XlsStyle.TableHeadingStyle | lib/gouge/reports/xls/xls_style.rb:36-38 | example: `table_heading`, as a string or a symbol, is `{weight: :bold}` |
| XlsStyle.CenterStyle | lib/gouge/reports/xls/xls_style.rb:40-42 | example: `center` is `{horizontal_align: :center}` |
| XlsStyle.CurrencyStyle | lib/gouge/reports/xls/xls_style.rb:44-46 | example: `currency` is `{number_format: '$#,###.##'}` |
| XlsStyle.SpaceSeparated | lib/gouge/reports/xls/xls_style.rb:23-29 | a space-separated string styles like the array of its two words |
| XlsSegment.Humanize | lib/gouge/reports/xls/xls_segment.rb:75 | `humanize` drops leading underscores and then a trailing `_id`; of what is left, the first character is upcased, and every later one becomes a space when it is `_` and is lower-cased otherwise; no underscore remains |
| XlsSegment.Unprefixed | lib/gouge/reports/xls/xls_segment.rb:75 | only leading underscores are dropped, all of them, and the rest is kept unchanged |
| XlsSegment.Stem | lib/gouge/reports/xls/xls_segment.rb:75 | a trailing `_id` is dropped and nothing else changes; a field without it is unchanged |
| XlsSegment.HeaderRow | lib/gouge/reports/xls/xls_segment.rb:73-78 | one cell per column definition, in order, valued `display_name` or the humanised field, with class `table_heading` |
| XlsSegment.DataRow | lib/gouge/reports/xls/xls_segment.rb:82-88 | one cell per column definition, carrying the record's value for the field (nil when absent) and that column's style and class |
| XlsSegment.Segment.constructor | lib/gouge/reports/xls/xls_segment.rb:54-63 | a new segment has the defaults (floating left, zero margins, no data, linked, no position) with the options applied in order |
| XlsSegment.Segment.Set | lib/gouge/reports/xls/xls_segment.rb:61 | an option with a setter changes exactly its own attribute; any other key changes nothing |
| XlsSegment.Segment.ImportFromProcessedGrid | lib/gouge/reports/xls/xls_segment.rb:65-90 | the data is replaced by the header row followed by one row per record, in grid order, so it has 1 + n rows; nothing else changes |
| XlsSegment.NoSetterIgnored | lib/gouge/reports/xls/xls_segment.rb:60-62 | options whose key has no setter leave the configuration unchanged |
| XlsSegment.ConfigureAppend | lib/gouge/reports/xls/xls_segment.rb:60-62 | options are applied one after another, so a later option for the same key wins |
| XlsSegment.LastLinkedWins | lib/gouge/reports/xls/xls_segment.rb:52-62 | a final `linked:` option decides `linked` and changes nothing else |
| XlsSegment.HeaderIsBold | lib/gouge/reports/xls/xls_segment.rb:76 | every header cell resolves to the bold `table_heading` style |
| XlsSegment.HumanizeDropsId | lib/gouge/reports/xls/xls_segment.rb:75 | humanising `stem_id`, for a stem not starting with `_`, humanises the stem alone: as long as the stem, its first character upcased, underscores as spaces and the rest lower-cased |
| XlsSegment.LeadingUnderscoreDropped | lib/gouge/reports/xls/xls_segment.rb:75 | a leading underscore changes nothing: `_field` humanises like `field` |
| XlsSegment.HumanizeExample | lib/gouge/reports/xls/xls_segment.rb:75 | example: `_Due_date_id` humanises to `Due date` |
| XlsSegment.HumanizeCapitalises | lib/gouge/reports/xls/xls_segment.rb:75 | a lower-case word without underscores is capitalised |
| XlsComposer.FirstCovering | lib/gouge/reports/xls/xls_composer.rb:79 | `index` finds the first merged region containing (x, y), or none when no region contains it |
| XlsComposer.ConsiderSpan | lib/gouge/reports/xls/xls_composer.rb:78-81 | x unchanged when no merged region contains (x, y); otherwise the first containing region's end column plus 1, which lies right of x |
| XlsComposer.SegmentStep | lib/gouge/reports/xls/xls_composer.rb:94-140 | a segment keeps a preset y and otherwise takes the cursor; its x becomes `x \|\| 0` once it has a row; a linked segment moves the cursor to `y + top + rows + bottom`, an unlinked one leaves it |
| XlsComposer.Run | lib/gouge/reports/xls/xls_composer.rb:90-141 | one resulting slot per segment slot |
| XlsComposer.Sheet.constructor | lib/gouge/reports/xls/xls_composer.rb:43 | a new worksheet has no cells and no merged regions |
| XlsComposer.Sheet.Write | lib/gouge/reports/xls/xls_composer.rb:118-127 | `row[x] = v` sets exactly cell (y, x) |
| XlsComposer.Sheet.MergeCells | lib/gouge/reports/xls/xls_composer.rb:124 | `merge_cells` appends exactly the given region |
| XlsComposer.WriteEntry | lib/gouge/reports/xls/xls_composer.rb:116-129 | one entry as the reference step writes it: a hash cell at the span-adjusted column, with a merged region when it spans; a bare cell at x |
| XlsComposer.WriteRow | lib/gouge/reports/xls/xls_composer.rb:115-131 | the loop over a row's entries equals the reference row step |
| XlsComposer.WriteSegment | lib/gouge/reports/xls/xls_composer.rb:94-140 | the sheet, the segment's position and the returned cursor are exactly the reference placement |
| XlsComposer.Composer.constructor | lib/gouge/reports/xls/xls_composer.rb:25-30 | a composer over the given segment list |
| XlsComposer.Composer.WriteSegmentsIntoSheet | lib/gouge/reports/xls/xls_composer.rb:88-142 | every non-nil segment in order from a cursor at row 0; the sheet and each segment's position end as the layout function `Run` computes |
| XlsComposer.BareRowIsConsecutive | lib/gouge/reports/xls/xls_composer.rb:126-129 | a row of bare values fills consecutive columns from x, adds no merged region, advances the column by its length and keeps every other cell |
| XlsComposer.SpanningCell | lib/gouge/reports/xls/xls_composer.rb:117-129 | a spanning hash cell is written at the span-adjusted column, records rows `y..y+rowspan−1` and columns `x..x+colspan−1`, and moves the column past the span |
| XlsComposer.RowStaysInRow | lib/gouge/reports/xls/xls_composer.rb:109-131 | a data row writes only cells of its own sheet row and only adds merged regions |
| XlsComposer.EntryStaysInRow | lib/gouge/reports/xls/xls_composer.rb:116-128 | an entry writes only cells of its own sheet row and only adds merged regions |
| XlsComposer.RowsStayInBand | lib/gouge/reports/xls/xls_composer.rb:108-136 | a segment's rows write only sheet rows `y .. y + count − 1`, one data row per sheet row |
| XlsComposer.NilSegmentSkipped | lib/gouge/reports/xls/xls_composer.rb:93 | a nil segment leaves the sheet and the cursor as they were |
| XlsComposer.CursorAfterSegment | lib/gouge/reports/xls/xls_composer.rb:138-140 | a linked segment moves the cursor to just below itself plus its bottom margin; an unlinked one leaves it |
| XlsComposer.FirstSegmentAtTop | lib/gouge/reports/xls/xls_composer.rb:90-99 | the first segment without a row of its own is placed at row 0 and records it |
| ShqlCommon.Start | lib/gouge/shql.rb:39-40 | the first operand is at index 1 after a leading `AND`/`OR`, else at 0, and never past the end |
| ShqlCommon.Lead | lib/gouge/shql.rb:40-41 | a tree has a combinator exactly when its first operand is at index 1 |
| ShqlCommon.QuotedLen | lib/gouge/shql.rb:54 | a double-quoted segment, when it closes, ends at a `"` inside the text |
| ShqlCommon.ItemLen | lib/gouge/shql.rb:54 | one repetition of the token pattern is at least one character long, and there is none exactly at the end, at a space or at an unclosed `"` |
| ShqlCommon.RunLen | lib/gouge/shql.rb:54 | a token match fits in the text and is empty exactly when no repetition can start |
| ShqlCommon.Scan | lib/gouge/shql.rb:54 | `scan` yields only non-empty tokens |
| ShqlCommon.RhsToken | lib/gouge/shql.rb:98 | `query_tokens[2]` exists exactly for three or more tokens and is then the third token |
| ShqlCommon.RunOfPlain | lib/gouge/shql.rb:54 | without quotes, a token is a non-empty maximal run of non-space characters |
| ShqlCommon.ScanOfPlain | lib/gouge/shql.rb:54 | without quotes, the tokens are exactly the non-empty space-separated fields |
| ShqlCommon.QuotedSegmentIsOneToken | lib/gouge/shql.rb:54 | a double-quoted segment followed by a space or the end is one token, its spaces and quotes included |
| ShqlCommon.Dedup | lib/gouge/shql.rb:131 | `uniq` has no duplicates and the same members as its input |
| ShqlCommon.DedupOfNoDup | lib/gouge/shql.rb:131 | a list without duplicates is left as it is |
| ShqlCommon.UnionKeepsLeft | lib/gouge/shql.rb:45 | `a \| b` starts with a unchanged and holds exactly the members of a and of b (also line 131) |
| ShqlCommon.Send | lib/gouge/shql.rb:115-123 | `send` succeeds exactly on a record that has the name and returns its value; otherwise it raises `NoMethodError` |
| ShqlCommon.MapSend | lib/gouge/shql.rb:201 | `map { send }` succeeds exactly when every element answers, and then holds each answer in order |
| ShqlCommon.TableName | lib/gouge/shql.rb:89 | `table_name` is answered exactly by records and collections |
| ShqlCommon.Quoted | lib/gouge/shql.rb:120-123 | a literal is the value's text between two single quotes |
| ShqlCommon.InList | lib/gouge/shql.rb:121 | an IN-list is the values joined by commas between parentheses |
| ShqlCommon.QuotedValues | lib/gouge/shql.rb:120 | only a collection or an array answers `map`; anything else raises `NoMethodError` |
| ShqlCommon.QuotedValuesOfRecords | lib/gouge/shql.rb:120 | over records that all have the attribute, the quoted values of each record in order |
| ShqlCommon.Includes | lib/gouge/shql.rb:245 | `include?` is a substring test on strings (a `TypeError` for a non-string), membership on arrays and collections, and raises on anything else |
| ShqlCommon.StripQuotesOfQuoted | lib/gouge/shql.rb:240 | the `gsub` strips exactly the two quotes of a single-quoted literal |
| ShqlCommon.StripQuotesOfBare | lib/gouge/shql.rb:240 | a literal with no quote at either end is kept as it is |
| ShqlCommon.Step | lib/gouge/shql.rb:200-204 | a collection maps the reader over its records into an array; any other value is sent the name |
| ShqlCommon.WalkSteps | lib/gouge/shql.rb:196-208 | walking a path raises only `NoMethodError` |
| ShqlCommon.PathValue | lib/gouge/shql.rb:196-208 | the value of an evaluate-mode path raises only `NoMethodError` |
| ShqlCommon.WalkThroughRecords | lib/gouge/shql.rb:203 | through a record, a path step just reads that attribute |
| ShqlCommon.ResolvePath | lib/gouge/shql.rb:196-208 | the path loop yields the path's value, segment 0 naming only the root |
| ShqlCommon.NestJoin | lib/gouge/shql.rb:79-83 | the nested join is named by its outermost segment and is a bare symbol exactly for one segment |
| ShqlCommon.LhsOf | lib/gouge/shql.rb:74-93 | one segment is its own column; two are qualified with the scope's table (raising when the scope has none); more nest the middle segments into a join with column `s1.attr`; the select maps the last segment to the column |
| ShqlCommon.CompileLhs | lib/gouge/shql.rb:74-93 | the `reverse_each` loop computes the left-hand join, column and select of LhsOf |
| ShqlCommon.PresentJoin | lib/gouge/shql.rb:131 | a join is added exactly when it is present |
| ShqlCommon.Condition | lib/gouge/shql.rb:133-137 | a blank right-hand side gives `1 = 2`; otherwise `column op rhs` |
| ShqlCommon.LeafOperand | lib/gouge/shql.rb:131-134 | a leaf adds its condition, its join (when present) and its select entry |
| ShqlCommon.Collect | lib/gouge/shql.rb:39 | one result per element |
| ShqlCommon.CollectMeaning | lib/gouge/shql.rb:39-147 | the elements succeed together or the error is that of the first element that raises, and on success each element's result is in its place |
| ShqlCommon.QueriesOf | lib/gouge/shql.rb:145 | the operand stack holds each operand's condition in order |
| ShqlCommon.JoinsOfMembers | lib/gouge/shql.rb:45 | the collected joins have no duplicates, hold exactly the operands' joins, and a later operand never moves earlier ones (also line 131) |
| ShqlCommon.SelectsOfKeys | lib/gouge/shql.rb:46 | the merged selects have a key exactly when some operand selects it (also line 132) |
| ShqlCommon.SelectsLastWins | lib/gouge/shql.rb:46 | `merge!` keeps the value of the last operand that selects a key (also line 132) |
| Shql.RootScope | lib/gouge/shql.rb:64-72 | the leaf has a scope exactly when its root is `subject` or `object`, and that scope is the one named; otherwise a syntax error for the leaf |
| Shql.SendPath | lib/gouge/shql.rb:114-116 | the middle `send`s raise only `NoMethodError` |
| Shql.RhsPath | lib/gouge/shql.rb:111-126 | rendering a right-hand path raises only `NoMethodError` |
| Shql.RhsText | lib/gouge/shql.rb:98-129 | the right-hand text raises only `NoMethodError` |
| Shql.OperandOf | lib/gouge/shql.rb:43-47 | an operand's joins have no duplicates |
| Shql.ParseAcc | lib/gouge/shql.rb:39-147 | after i elements the stack holds one condition per element besides a leading combinator, the operator is set exactly when element 0 is `AND`/`OR` and is that word, and the joins have no duplicates |
| Shql.Parse | lib/gouge/shql.rb:25-156 | the instruction's joins have no duplicates |
| Shql.ParseErrorPersists | lib/gouge/shql.rb:39-147 | once an element raises, `parse_json` raises that error |
| Shql.ResolveRhs | lib/gouge/shql.rb:111-126 | the right-hand loop produces the text of RhsPath |
| Shql.CompileLeaf | lib/gouge/shql.rb:54-72 | compiling a leaf string gives its LeafPiece |
| Shql.CompileScoped | lib/gouge/shql.rb:59-137 | compiling a well-formed leaf in its scope gives its ScopedPiece |
| Shql.CompileOperand | lib/gouge/shql.rb:43-138 | compiling an element gives its OperandOf |
| Shql.ParseJson | lib/gouge/shql.rb:25-156 | the loop of `parse_json` computes Parse |
| Shql.ParseStep | lib/gouge/shql.rb:40-46 | one loop step extends the accumulator of the first idx elements to that of idx + 1, or raises the error ParseAcc raises |
| Shql.PushOperand | lib/gouge/shql.rb:43-145 | pushing an element's operand extends the accumulator to idx + 1, or raises its error |
| Shql.EvalAcc | lib/gouge/shql.rb:165-261 | after i elements the stack holds one result per element besides a leading combinator, and the operator is set exactly when element 0 is `AND`/`OR` and is that word |
| Shql.EvalErrorPersists | lib/gouge/shql.rb:165-261 | once an element raises, `evaluate_json` raises that error |
| Shql.EvaluateLeaf | lib/gouge/shql.rb:177-193 | evaluating a leaf string gives its LeafValue |
| Shql.EvaluateScoped | lib/gouge/shql.rb:181-251 | evaluating a well-formed leaf in its scope gives its ScopedValue |
| Shql.EvaluateOperand | lib/gouge/shql.rb:169-170 | evaluating an element gives its OperandValue |
| Shql.EvaluateJson | lib/gouge/shql.rb:158-274 | the loop of `evaluate_json` computes Evaluate |
| Shql.EvaluateStep | lib/gouge/shql.rb:166-167 | one loop step extends the tally of the first idx elements to that of idx + 1, or raises its error |
| Shql.PushResult | lib/gouge/shql.rb:169-259 | pushing an element's result extends the tally to idx + 1, or raises its error |
| Shql.ParseAccFolds | lib/gouge/shql.rb:39-147 | the accumulator after i elements is the fold of the operands among them |
| Shql.ParseCombines | lib/gouge/shql.rb:25-156 | a blank tree is `1 = 1` with no joins or selects; otherwise the operands' conditions joined by the combinator (or the first alone), their joins collected with `\|=` and their selects merged, or the first element's error |
| Shql.EvalAccFolds | lib/gouge/shql.rb:165-261 | the tally after i elements holds the results of the operands among them |
| Shql.EvaluateCombines | lib/gouge/shql.rb:158-274 | a blank tree is true; otherwise `all?` of the operand results for AND, `any?` for OR, the first alone without a combinator, or the first element's error |
| Shql.ScopedPieceRaisesNoMethod | lib/gouge/shql.rb:59-137 | a well-formed leaf in its scope compiles or raises `NoMethodError` |
| Shql.ScopedValueNoSyntaxError | lib/gouge/shql.rb:181-251 | a well-formed leaf in its scope never raises a syntax error when evaluated |
| Shql.LeafSyntaxRule | lib/gouge/shql.rb:54-56 | both modes raise the syntax error exactly when the token check fails or the root is neither `subject` nor `object` (also lines 65-72, 177-179 and 186-193) |
| Shql.SubjectLeafIgnoresObject | lib/gouge/shql.rb:102-109 | under a `subject.` left-hand side the object does not matter, even for an `object.` right-hand path (also lines 217-224) |
| Shql.ObjectLeafIgnoresSubject | lib/gouge/shql.rb:102-109 | under an `object.` left-hand side the subject does not matter, even for a `subject.` right-hand path (also lines 217-224) |
| Shql.RhsRootIgnored | lib/gouge/shql.rb:111-113 | the first segment of a right-hand path is never read |
| Shql.ScopedLhsShape | lib/gouge/shql.rb:74-93 | the select maps the last segment to the column; three or more segments nest the middle ones into the join with column `s1.attr`; two segments have no join and a column qualified with the scope's table (also lines 131-132) |
| Shql.ScopedLiteralVerbatim | lib/gouge/shql.rb:128-134 | a right-hand token that is not a path is copied into the condition unquoted |
| Shql.TwoTokenLeafRaises | lib/gouge/shql.rb:55 | a two-token leaf passes the token check and then raises on `nil.start_with?` (also line 98) |
| Shql.InListOfRecords | lib/gouge/shql.rb:119-121 | IN over records that have the attribute is the parenthesised comma list of their quoted values, blank for an empty collection |
| Shql.EmptyInListIsFalse | lib/gouge/shql.rb:121-137 | IN over an empty collection makes the leaf `1 = 2` |
| Shql.BlankRhsIsFalse | lib/gouge/shql.rb:243-250 | a blank right-hand value makes the leaf false |
| Shql.QuotedLiteralEquality | lib/gouge/shql.rb:240-247 | `a = 'w'` with a non-blank w holds exactly when the left-hand value is the string w |
| Shql.InIsMembership | lib/gouge/shql.rb:244-245 | `a IN path` over a non-empty array holds exactly when the left-hand value is one of its elements |
| ShqlLegacy.GuardedWalk | lib/gouge/shql/shql.rb:86-97 | a nil or false subject stops the walk with nothing to render; a value reached is truthy; only `NoMethodError` is raised |
| ShqlLegacy.SubjectRhs | lib/gouge/shql/shql.rb:83-107 | rendering a `subject.` path raises only `NoMethodError` |
| ShqlLegacy.RhsText | lib/gouge/shql/shql.rb:82-110 | the right-hand text raises only `NoMethodError` |
| ShqlLegacy.OperandOf | lib/gouge/shql/shql.rb:42-46 | an operand's joins have no duplicates |
| ShqlLegacy.ParseAcc | lib/gouge/shql/shql.rb:38-128 | after i elements the stack holds one condition per element besides a leading combinator, the operator is set exactly when element 0 is `AND`/`OR` and is that word, and the joins have no duplicates |
| ShqlLegacy.Parse | lib/gouge/shql/shql.rb:24-137 | the instruction's joins have no duplicates |
| ShqlLegacy.ParseErrorPersists | lib/gouge/shql/shql.rb:38-128 | once an element raises, `parse_json` raises that error |
| ShqlLegacy.ResolveSubjectRhs | lib/gouge/shql/shql.rb:83-107 | the right-hand loop over a `subject.` path produces the text of SubjectRhs |
| ShqlLegacy.CompileLeaf | lib/gouge/shql/shql.rb:53-55 | compiling a leaf string gives its LeafPiece |
| ShqlLegacy.CompileTokens | lib/gouge/shql/shql.rb:57-118 | compiling a well-formed leaf gives its TokensPiece |
| ShqlLegacy.CompileOperand | lib/gouge/shql/shql.rb:42-119 | compiling an element gives its OperandOf |
| ShqlLegacy.ParseJson | lib/gouge/shql/shql.rb:24-137 | the loop of `parse_json` computes Parse |
| ShqlLegacy.ParseStep | lib/gouge/shql/shql.rb:39-45 | one loop step extends the accumulator of the first idx elements to that of idx + 1, or raises the error ParseAcc raises |
| ShqlLegacy.PushOperand | lib/gouge/shql/shql.rb:42-126 | pushing an element's operand extends the accumulator to idx + 1, or raises its error |
| ShqlLegacy.EvalAcc | lib/gouge/shql/shql.rb:146-222 | after i elements the stack holds one result per element besides a leading combinator, and the operator is set exactly when element 0 is `AND`/`OR` and is that word |
| ShqlLegacy.EvalErrorPersists | lib/gouge/shql/shql.rb:146-222 | once an element raises, `evaluate_json` raises that error |
| ShqlLegacy.EvaluateLeaf | lib/gouge/shql/shql.rb:158-160 | evaluating a leaf string gives its LeafValue |
| ShqlLegacy.EvaluateTokens | lib/gouge/shql/shql.rb:162-212 | evaluating a well-formed leaf gives its TokensValue |
| ShqlLegacy.EvaluateOperand | lib/gouge/shql/shql.rb:150-151 | evaluating an element gives its OperandValue |
| ShqlLegacy.EvaluateJson | lib/gouge/shql/shql.rb:139-235 | the loop of `evaluate_json` computes Evaluate |
| ShqlLegacy.EvaluateStep | lib/gouge/shql/shql.rb:147-148 | one loop step extends the tally of the first idx elements to that of idx + 1, or raises its error |
| ShqlLegacy.PushResult | lib/gouge/shql/shql.rb:150-220 | pushing an element's result extends the tally to idx + 1, or raises its error |
| ShqlLegacy.ParseAccFolds | lib/gouge/shql/shql.rb:38-128 | the accumulator after i elements is the fold of the operands among them |
| ShqlLegacy.ParseCombines | lib/gouge/shql/shql.rb:24-137 | a blank tree is `1 = 1` with no joins or selects; otherwise the operands' conditions joined by the combinator (or the first alone), their joins collected with `\|=` and their selects merged, or the first element's error |
| ShqlLegacy.EvalAccFolds | lib/gouge/shql/shql.rb:146-222 | the tally after i elements holds the results of the operands among them |
| ShqlLegacy.EvaluateCombines | lib/gouge/shql/shql.rb:139-235 | a blank tree is true; otherwise `all?` of the operand results for AND, `any?` for OR, the first alone without a combinator, or the first element's error |
| ShqlLegacy.TokensPieceRaisesNoMethod | lib/gouge/shql/shql.rb:57-118 | a well-formed leaf compiles or raises `NoMethodError` |
| ShqlLegacy.TokensValueNoSyntaxError | lib/gouge/shql/shql.rb:162-212 | a well-formed leaf never raises a syntax error when evaluated |
| ShqlLegacy.LeafSyntaxRule | lib/gouge/shql/shql.rb:53-55 | both modes raise the syntax error exactly when the token check fails; the root segment is not checked (also lines 158-160) |
| ShqlLegacy.LhsRootIgnored | lib/gouge/shql/shql.rb:61-79 | for two or more segments the root segment of a left-hand path changes neither its compiled form nor its value (also lines 165-177) |
| ShqlLegacy.SameButRootTokens | lib/gouge/shql/shql.rb:53-54 | leaves that differ only in the left-hand root have the same operator, right-hand token and token check |
| ShqlLegacy.LeafRootIgnoredInParse | lib/gouge/shql/shql.rb:57-118 | leaves that differ only in the left-hand root compile alike |
| ShqlLegacy.LeafRootIgnoredInEvaluate | lib/gouge/shql/shql.rb:162-212 | leaves that differ only in the left-hand root evaluate alike |
| ShqlLegacy.NonSubjectRhsVerbatim | lib/gouge/shql/shql.rb:83-115 | a right-hand token not starting with `subject`, an `object.` path included, is copied into the condition unquoted |
| ShqlLegacy.StoppedSubjectIsFalse | lib/gouge/shql/shql.rb:86-118 | a subject walk stopped at nil or false makes the leaf `1 = 2`, its join and select still collected |
| ShqlLegacy.NilSubjectIsFalse | lib/gouge/shql/shql.rb:84-118 | a nil subject makes every `subject.` leaf `1 = 2` |
| ShqlLegacy.InListOfSubjectRecords | lib/gouge/shql/shql.rb:99-102 | IN over subject records that have the attribute is the parenthesised comma list of their quoted values, blank for an empty collection |
| ShqlLegacy.ListLhsMeansMembership | lib/gouge/shql/shql.rb:201-202 | an array on the left is searched for the right-hand value, whatever the operator |
| ShqlLegacy.OtherOperatorIsInclusion | lib/gouge/shql/shql.rb:204-208 | any operator but `=` over a non-array left-hand value is `rhs.include?(lhs)` |
| ShqlLegacy.BlankRhsIsFalse | lib/gouge/shql/shql.rb:200-211 | a blank right-hand value makes the leaf false |
| ShqlLegacy.QuotedLiteralEquality | lib/gouge/shql/shql.rb:197-205 | `a = 'w'` with a non-blank w over a non-array value holds exactly when that value is the string w |

## Left out

- Database access: the ActiveRecord relation calls the grid processor feeds (`select`, `joins`, `where`, `group`, `paginate`, `reorder`, `paginate_by_sql`), the subquery SQL assembly and `parse_params`. These are library calls. The clause builders return the strings the code passes to them, and `GridPaging` stands for the arguments given to `paginate`.
- The date branches of advanced search call `DateTime.parse(...).in_time_zone`. Time-zone parsing is a parameter `parseDate` supplied by the caller.
- Calendar arithmetic is not modelled. The month and year generators step with ActiveSupport's calendar, so their candidate dates are an input list `calendarDates`. `beginning_of_day`, `end_of_day`, and the hour, minute and weekday of `from_time` are inputs in integer seconds. The `strptime` times of conflict hashes and `lib/gouge/recurring_event/event.rb` are not modelled.
- `FindConflictedEvents` (both concerns): Ruby's `sort!` is not stable. The model promises only that the sorted list is ordered by start time and is a permutation of the input, not which order equal start times end up in.
- Reflection: `send` is an accessor on a tagged value (`ShqlCommon.Val`). A record answers its attribute and association names, and nothing else answers any name. Ruby method lookup is not modelled.
- `ShqlCommon.ToS` renders records, collections and arrays as a fixed placeholder text, not Ruby's `inspect` output.
- `ShqlCommon.Val` compares collections (`CollectionProxy`) and plain arrays structurally. In Ruby a proxy can equal an array with the same records; here a `Many` never equals a `List`.
- `flatten` on the joins of a nested array is the identity, because the joins collected are already a flat list of join specs.
- SQL safety: values are interpolated into SQL unescaped, exactly as the code builds them. No claim about injection is made.
- Sortable tree persistence: the table is an in-memory map from id to (parent id, sequence), and siblings are the records that share a parent id. The query DSLs, SQL, callbacks other than ancestry's parent lookup and exclude-self validation, and uniqueness constraints are not modelled. A transaction is modelled only as all-or-nothing: the first error leaves the table as it was. The update of the record's other attributes in `update_with_movement!` is not modelled.
- TreeTable.AtOrBelow: follows at most as many parent links as the table has records. That bound matters only for a cyclic table, which ancestry's path column cannot store.
- The spreadsheet library and file output: `Spreadsheet::Workbook`, `StringIO`, file writes, `set_format` and `generate_format`, `autofit` and all of `lib/gouge/reports/xls/xls_report.rb`. The worksheet is a map from (row, column) to cell value with a list of merged regions.
- Segment width and height: the composer assigns them two-element arrays, not maxima, so they and their setters are not among the segment's options.
- `XlsComposer.Composer.WriteSegmentsIntoSheet` requires the non-nil segments to be distinct objects. The same segment listed twice, which Ruby allows, is not modelled.
- Controller, authentication and model glue (`base_api.rb`, the token authentication files, the user stamp files, `notification.rb`, `realm.rb`, `acts_as_realm.rb`), the loader and the exception classes. These are framework callbacks, I/O and global state.
- `spec/lib/gouge/grid_processor_spec.rb` contains only pending examples.
- XlsStyle.UpcaseAll: upcases ASCII letters only. From Ruby 2.4 `String#upcase` follows Unicode, so `ı` becomes `I` and `ﬁ` becomes `FI`. A class name spelt with such letters can find a constant in Ruby that the model misses.
- XlsStyle.Resolve: the constants of Object and the members of its classes and modules are a caller-supplied map. Autoloading, `const_missing` and constants defined while the program runs are not modelled.
- XlsSegment.Humanize: the case mapping is ASCII only. ActiveSupport's `/([a-z\d]*)/i` also matches the Kelvin sign `K` (U+212A), which `downcase` then turns into `k`; the model keeps it. Inflection rules (`inflections.human`) and acronyms are assumed empty, as they are by default.
- IntegerToBool: follows Ruby 2.4 and 2.5, where `Fixnum` is `Integer`. Before 2.4 a Bignum has no `to_bool` and raises NoMethodError. From 3.2 `Fixnum` is gone, so no integer has `to_bool`.
- Recurrence.FetchEventsTime: a month or year interval of zero or less never ends in Ruby, because `cis` never passes the right edge. The caller-supplied `calendarDates` is a finite list and cannot express that.
- Recurrence.EveryNDates: raises ArgumentError for a range without an end, as Ruby before 2.6 does. From Ruby 2.6 that range is endless and the `step` at lib/gouge/recurring_event.rb:182 never returns.
- RecordLocator.Encode: takes a natural number. On a negative value the Ruby loop `until value == 0` never ends, because floor division keeps `-1 / 27` at -1.
- SortableTree.Tree.ExecuteMovements: assumes parent ids arrive with the column's type. In Ruby a String parent id such as `"3"` is not `==` the Integer 3 at lib/gouge/sortable_tree.rb:71, so a movement within one parent takes the different-parent branch.
- SortableTree.Tree.UpdateWithMovement: assumes parent ids arrive with the column's type. In Ruby a String `params[:parent_id]` is never `eql?` an Integer parent id at lib/gouge/sortable_tree.rb:141, so a request naming the current parent still runs a movement.
- SortableTreeLegacy.Tree.ExecuteMovements: assumes parent ids arrive with the column's type, for the comparison at lib/gouge/sortable_tree/sortable_tree.rb:68.
- SortableTreeLegacy.Tree.UpdateWithMovement: makes the same assumption, for the `eql?` at lib/gouge/sortable_tree/sortable_tree.rb:127.
- SortableTreeLegacy.Step: models the legacy file as it runs on ActiveRecord 4.0 with squeel. From ActiveRecord 4.1 `.all` returns a relation without `sort!`, so line 70 raises NoMethodError on every move within one parent. Squeel does not load on ActiveRecord 5, and `lib/gouge.rb` never requires this file.

## Findings

| source | as written | input that shows it | evidently intended | confidence | as-written member | corrected member |
|---|---|---|---|---|---|---|
| lib/gouge/sortable_tree.rb:74-75 | the sibling range uses strict bounds `> min(src, dest)` and `< max(src, dest)`, and the cross-parent query at line 111 uses `> dest_seq`, so the sibling at the destination is never shifted | four roots with sequences 0, 1, 2, 3; move the root at 0 to `dest_seq` 2 among the same roots: the moved item and the root at 2 both end with sequence 2 | inclusive bounds, as in the older lib/gouge/sortable_tree/sortable_tree.rb:70, 88 and 96, so that every parent's children stay numbered 0 to n-1 | not executed | SortableTree.StrictBoundsCollide | SortableTreeLegacy.StepKeepsDense |
