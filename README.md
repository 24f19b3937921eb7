# Markov speaker model, slot-array table, autocompletion trie and SQL clause assembly

This project models, in Dafny, four parts of a course repository and proves
what each one does.

- `hash_table.dfy`, module `HashTables`: the `Hash_Table` class of
  `pa5/Hash_Table.py`. It is a slot array that stores values only. `update`
  probes forward from the given index to the first empty slot, with no
  wrap-around, and counts the value. Once the table is half full, it doubles
  the capacity and reinserts every value at its polynomial string hash.
  `HashTable` is a class over an `array`. Each method is proved equal to a
  function on the table's state (`LookupF`, `UpdateF`, `RehashF`,
  `ReinsertF`). Lemmas about those functions prove:
  - size equals the occupied slots;
  - the load bound `2 * size < capacity` holds after every update that
    does not raise;
  - the capacity only ever doubles;
  - the stored values are preserved, through nested rehashes;
  - the array-index errors are Python's `IndexError`.
- `markov.dfy`, module `Markov`: the k-order character model of
  `pa5/Markov.py`.
  - `update_hash` counts the windows of `s[-k:] + s`.
  - `log_probability` recounts the training text into the same table on
    every call, then sums `ln` of the smoothed ratios
    `(count(k+1-gram) + 1) / (count(k-gram) + n)` over the wrapped query.
  - `identify_speaker` normalises both scores and compares them strictly.

  The count table is a string-keyed map with default 0, as the table's
  docstrings describe. The class invariant says that every count equals the
  number of calls times the occurrences in one round.
- `english_dictionary.dfy`, module `Autocomplete`: the trie of
  `pa1/english_dictionary.py`. It covers adding words, `is_word`,
  `get_completions` and `num_completions`. The words of a file are modelled
  as a sequence of lines.
- `courses.dfy`, module `Courses`: the clause helpers of `pa3/ui/courses.py`.
  They append to caller-owned lists, modelled as `Python.List` objects.
  `construct_query` joins the lists into the query, and `clean_header`
  strips the table name from a column name. For `build_terms_query`,
  `process_dept_terms`, `process_day`, `process_time`, `process_relations`,
  `process_enroll` and `build_distance_query`, lemmas count the `?`
  placeholders in the clauses each one adds. The count equals the number of
  arguments it adds, except for `process_time`. `process_time` adds a clause
  with one placeholder but no argument; `find_courses` appends that argument
  itself (`pa3/ui/courses.py:65-66`). `construct_query` keeps every
  placeholder of its clauses.
- `python.dfy`, module `Python`: the Python built-ins these rely on:
  - slices with negative bounds;
  - `strip`, `split`, `join` and `str(int)`;
  - `str.count` for one character;
  - the list operations `append`, `extend` and `insert`;
  - the exceptions the code can raise, as an `Outcome` datatype.

Where the code departs from its own docstrings, the model follows the code.
The `update` docstring (`pa5/Hash_Table.py:49-51`) speaks of a key's value
being replaced. The code never overwrites: it always fills a fresh slot
(`NoOverwrite`).

Behaviour of the code that the model keeps as written:
- The probe does not wrap around. Running off the end raises `IndexError`
  (`UpdateRaises`).
- An `IndexError` in an update nested inside a rehash leaves the partly
  rebuilt table in place.
- The constructors check nothing about their arguments.
  - A `Hash_Table` of capacity 0 raises on every update.
  - An empty training text gives `n = 0`.
  - An empty query raises `ZeroDivisionError` in `identify_speaker`.
- For `k > len(s)` the wrapped string is `s + s`.
- Counts accumulate across `log_probability` calls (`RepeatedCalls`).
- `identify_speaker` answers "B" on a tie. `ComparativeScenario` is an
  example of a tie: speakers "aaaaaaaa" and "bbbbbbbb", query "aaaaa", both
  normalised scores 0, answer "B".

## Model

| member | source | states |
|---|---|---|
| HashTables.Init | pa5/Hash_Table.py:24-27 | a new table has `cells` empty slots, size 0, nothing stored, and keeps `defval` |
| HashTables.HashTable.constructor | pa5/Hash_Table.py:11-27 | the object's fields are the state `Init(cells, defval)` |
| HashTables.LookupF | pa5/Hash_Table.py:42-45 | raises IndexError exactly when the key is outside [-capacity, capacity); otherwise returns `defval` or one of the stored values |
| HashTables.HashTable.Lookup | pa5/Hash_Table.py:42-45 | the method returns `LookupF` of the object's state and changes nothing |
| HashTables.PolyHash | pa5/Hash_Table.py:76-81 | the hash lies in [0, capacity) |
| HashTables.PolyHashIsPolynomial | pa5/Hash_Table.py:76-81 | reducing after every step of the fold gives the polynomial sum of ord(c) * 37^i, reduced once |
| HashTables.HashTable.Hash | pa5/Hash_Table.py:76-81 | `hash_("")` is 0; a non-empty string at capacity 0 raises ZeroDivisionError; otherwise the result is the fold `PolyHash` |
| HashTables.HashOfHi | pa5/Hash_Table.py:76-81 | `hash_("hi")` is 0, 1 and 1 at capacities 1, 2 and 4 |
| HashTables.ProbeEnd | pa5/Hash_Table.py:59-62 | the probe stops at the first empty slot at or after the key, or at capacity; every slot it passes is occupied |
| HashTables.HashTable.Probe | pa5/Hash_Table.py:59-62 | the probing loop ends where `ProbeEnd` says |
| HashTables.UpdateF | pa5/Hash_Table.py:59-68 | an update keeps size equal to the occupied slots and never shrinks the capacity; when it does not raise, size grows by one and `2 * size < capacity` holds afterwards |
| HashTables.HashTable.Update | pa5/Hash_Table.py:59-68 | the new fields and the raised flag are `UpdateF` of the old fields |
| HashTables.RehashF | pa5/Hash_Table.py:83-92 | a rehash at least doubles the capacity and, when nothing raises, keeps the size and ends below half full |
| HashTables.HashTable.Rehash | pa5/Hash_Table.py:83-92 | the method's new state is `RehashF` of the old state, in a fresh array |
| HashTables.ReinsertF | pa5/Hash_Table.py:89-92 | reinserting the values adds their count to the size and ends below half full, unless an update raised |
| HashTables.HashTable.ReinsertAll | pa5/Hash_Table.py:89-92 | the reinsertion loop's final state is `ReinsertF` of the state before it |
| HashTables.HashTable.Reinsert | pa5/Hash_Table.py:91-92 | one turn of the loop is `update(hash_(v), v)` at the current capacity |
| HashTables.UpdateKeeps | pa5/Hash_Table.py:59-68 | an update keeps `defval`, multiplies the capacity by a power of two and adds exactly `val` to the stored multiset, or no more than that when it raises |
| HashTables.RehashKeeps | pa5/Hash_Table.py:83-92 | a rehash keeps the multiset of stored values, including through nested rehashes, and ends at twice the capacity doubled zero or more times |
| HashTables.ReinsertKeeps | pa5/Hash_Table.py:89-92 | the reinsertion loop adds exactly the values being reinserted |
| HashTables.UpdateInPlace | pa5/Hash_Table.py:59-65 | without a rehash, `val` goes into the lowest empty slot at or after the key, every other slot is unchanged and size grows by one |
| HashTables.UpdateRaises | pa5/Hash_Table.py:59-62 | a key out of range, or a probe that runs off the end, raises IndexError and changes nothing |
| HashTables.UpdateGrows | pa5/Hash_Table.py:67-68 | after a successful insert the capacity at least doubles exactly when the new size reaches half the capacity; otherwise it is unchanged |
| HashTables.NoOverwrite | pa5/Hash_Table.py:59-64 | two updates at the same key fill two slots; the first value is still found at the key |
| HashTables.DemoScenario | pa5/Hash_Table.py:97-104 | `Hash_Table(1, "empty")` then `update(hash_("hi"), "hi")` ends at capacity 4 with "hi" in slot 1; `lookup(1)` is "hi" and `lookup(2)` is "empty" |
| HashTables.Demo | pa5/Hash_Table.py:97-104 | the same run on a `HashTable` object returns "hi" and "empty" |
| Markov.CountTable.constructor | pa5/Hash_Table.py:11-27 | a new count table is empty and keeps its cell count and default |
| Markov.CountTable.Update | pa5/Hash_Table.py:48-52 | the key now maps to the new value |
| Markov.Alphabet | pa5/Markov.py:25 | a character is in the alphabet exactly when it occurs in the text |
| Markov.AlphabetSize | pa5/Markov.py:25-26 | `n` is at most `len(s)`, and at least 1 for a non-empty text |
| Markov.MarkovModel.constructor | pa5/Markov.py:17-29 | the model keeps `k` and `s`, has `n` distinct characters and an empty table of 57 cells with default 0 |
| Markov.TallyCounts | pa5/Markov.py:74-78 | counting a list of grams raises each key's count by its number of occurrences |
| Markov.GramsInRange | pa5/Markov.py:74-78 | for 1 <= k <= len(s) there are exactly len(s) increments, the i-th on the window of `s[-k:] + s` at i |
| Markov.GramsZero | pa5/Markov.py:74-75 | for k = 0 the prefix is all of s and the loop runs 2 len(s) times on the empty string |
| Markov.TallyZero | pa5/Markov.py:74-78 | with k = 0 only the empty string's count grows, by 2 len(s) |
| Markov.GramsLong | pa5/Markov.py:74-75 | for k > len(s) the prefix is all of s and the loop runs max(0, 2 len(s) - k) times over windows of s + s |
| Markov.ConstMultiset | pa5/Markov.py:74-78 | a list of one repeated gram counts that gram its length times and nothing else |
| Markov.MarkovModel.UpdateHash | pa5/Markov.py:74-78 | the table afterwards is the old table with every gram of s counted once more |
| Markov.RoundAdds | pa5/Markov.py:45-46 | one more round of counting takes every count from c times its occurrences to c + 1 times |
| Markov.MarkovModel.Recount | pa5/Markov.py:45-46 | each call counts the k-grams and (k+1)-grams of the training text once more and keeps the invariant count = calls * occurrences |
| Markov.FirstRound | pa5/Markov.py:45-46 | after the first call every count is one round's occurrences |
| Markov.TermsInRange | pa5/Markov.py:47-51 | for 1 <= k <= len(q) there is one ratio per query character; at each position the k-gram is the prefix of the (k+1)-gram |
| Markov.TermsZero | pa5/Markov.py:47-51 | for k = 0 there are 2 len(q) ratios, each with the empty context and a one-character gram |
| Markov.TermsUpToIndex | pa5/Markov.py:49-54 | the i-th ratio is the one computed from the grams at position i |
| Markov.TermAfterRounds | pa5/Markov.py:45-54 | after c rounds each ratio is (c * occurrences of the (k+1)-gram + 1) / (c * occurrences of the k-gram + n) |
| Markov.Score | pa5/Markov.py:54-56 | the only error summing can raise is ZeroDivisionError |
| Markov.ScoreRaises | pa5/Markov.py:54-56 | the sum raises exactly when some ratio has denominator 0 |
| Markov.ScoreRaisesAt | pa5/Markov.py:54 | a zero denominator at any position makes the whole score raise ZeroDivisionError |
| Markov.ScoreStart | pa5/Markov.py:44 | before the loop the sum is 0 |
| Markov.ScoreExtend | pa5/Markov.py:49-56 | one turn of the loop adds ln of the next ratio to the sum |
| Markov.ScoreDefined | pa5/Markov.py:25-26 | with a non-empty training text and non-negative counts every denominator is at least 1 and scoring never raises |
| Markov.MarkovModel.ScoreQuery | pa5/Markov.py:47-58 | the scoring loop returns the sum of ln of the ratios over the wrapped query, or ZeroDivisionError |
| Markov.MarkovModel.LogProbability | pa5/Markov.py:44-58 | a call adds one round of counting to the table and returns the score of the query under the updated counts |
| Markov.Decide | pa5/Markov.py:99-108 | both scores are divided by len(speech3); an empty query raises ZeroDivisionError; the answer is "A" exactly when prob1 > prob2 and "B" on ties |
| Markov.FreshScore | pa5/Markov.py:100-103 | the first call on a fresh model scores with the counts of one round |
| Markov.IdentifySpeaker | pa5/Markov.py:99-110 | the result is the decision rule applied to the first scores of the two fresh models |
| Markov.RunAlphabet | pa5/Markov.py:25-26 | a run of one character has alphabet size 1 |
| Markov.RunGrams | pa5/Markov.py:74-78 | every k-gram of a run is the run of length k |
| Markov.RunOccurrences | pa5/Markov.py:74-78 | one round over a run of m characters adds m to the k-run and the (k+1)-run and nothing else |
| Markov.RunWindows | pa5/Markov.py:47-51 | the wrapped query of a run is a longer run and its grams are runs |
| Markov.RunTermAt | pa5/Markov.py:49-54 | against a model trained on a run, every ratio of a query that is a run equals 1 |
| Markov.RunTerms | pa5/Markov.py:49-54 | such a query has one ratio per character, each equal to 1 |
| Markov.ScoreOfOnes | pa5/Markov.py:54-56 | ratios that are all 1 score 0 when ln(1) = 0 |
| Markov.RunScore | pa5/Markov.py:44-58 | a model trained on a run scores a query that is a run at 0, after any number of calls |
| Markov.KnownValue | pa5/Markov.py:44-58 | training text "aaaa", order 1, query "aaaa": the log-probability is 0 |
| Markov.RunFirstScore | pa5/Markov.py:44-58 | the first call of a model trained on a run scores a query that is a run at 0 |
| Markov.ComparativeScenario | pa5/Markov.py:99-108 | speakers "aaaaaaaa" and "bbbbbbbb", order 1, query "aaaaa": both normalised scores are 0 and the answer is "B" |
| Markov.AbGrams1 | pa5/Markov.py:74-78 | the 1-grams of "ab" are "b", "a" |
| Markov.AbGrams2 | pa5/Markov.py:74-78 | the 2-grams of "ab" are "ab", "ba" |
| Markov.AbOccurrences | pa5/Markov.py:74-78 | one round over "ab" counts "a" once and "aa" never |
| Markov.AbTerms | pa5/Markov.py:47-54 | after c rounds over "ab", the query "a" has the single ratio 1 / (c + 2) |
| Markov.AbScore | pa5/Markov.py:47-58 | so the call scores ln(1 / (c + 2)) |
| Markov.RepeatedCalls | pa5/Markov.py:44-58 | two `log_probability("a")` calls on `Markov(1, "ab")` return ln(1/3) and then ln(1/4): the counts accumulate |
| Autocomplete.EmptyHasNoWord | pa1/english_dictionary.py:116-119 | a new node holds no word from any position |
| Autocomplete.EmptyNoWords | pa1/english_dictionary.py:116-119 | `is_word` is False for every string on a new trie |
| Autocomplete.EmptyNodeAt | pa1/english_dictionary.py:116-119 | a new node has no path but the empty one |
| Autocomplete.InsertWords | pa1/english_dictionary.py:121-146 | after adding the rest of a word, the rest of v is a word exactly when it is that string or was a word before |
| Autocomplete.AddWordWords | pa1/english_dictionary.py:148-159 | after `add_word(w)`, `is_word(v)` holds exactly for v = w and the words before |
| Autocomplete.IsWordNodeAt | pa1/english_dictionary.py:46-52 | `is_word_helper` is the `final` flag of the node the word leads to, False when there is no such node |
| Autocomplete.InsertOnPath | pa1/english_dictionary.py:134-146 | every node on the added word's path, from the root to the end node, counts exactly one more word |
| Autocomplete.InsertOffPath | pa1/english_dictionary.py:134-146 | every node off the added word's path is unchanged |
| Autocomplete.AddWordCounts | pa1/english_dictionary.py:134-146 | the count at a path grows by one exactly when the path is a prefix of the added word |
| Autocomplete.InsertWellFormed | pa1/english_dictionary.py:136-140 | adding keeps every node's key order listing each child exactly once |
| Autocomplete.InsertLeavesFinal | pa1/english_dictionary.py:134-144 | adding to a new or well-built trie leaves every childless node final |
| Autocomplete.Entries | pa1/english_dictionary.py:29-33 | the words the constructor adds are non-empty and distinct |
| Autocomplete.EntriesStep | pa1/english_dictionary.py:30-33 | each line adds its stripped text unless that is empty or already a word |
| Autocomplete.StrippedLines | pa1/english_dictionary.py:31 | the i-th stripped line is `lines[i].strip()` |
| Autocomplete.EntriesMembers | pa1/english_dictionary.py:29-33 | the words added are exactly the non-empty stripped lines |
| Autocomplete.AddEntry | pa1/english_dictionary.py:31-33 | adding a new word keeps the trie's words and every node's count in step with the words added |
| Autocomplete.EnglishDictionary.constructor | pa1/english_dictionary.py:20-33 | the words are exactly the distinct non-empty stripped lines; the root count is their number; each node counts the words below it |
| Autocomplete.EnglishDictionary.IsWord | pa1/english_dictionary.py:35-44 | `is_word(w)` is True exactly when w was added |
| Autocomplete.EnglishDictionary.NumCompletions | pa1/english_dictionary.py:55-75 | `num_completions` returns 0 whatever the prefix |
| Autocomplete.EnglishDictionary.CountCompletions | pa1/english_dictionary.py:55-64 | the count of the prefix's node is the number of added words that start with the prefix |
| Autocomplete.NumCompletionsUndercounts | pa1/english_dictionary.py:55-75 | with the single word "a", one word starts with "" but `num_completions("")` is 0 |
| Autocomplete.Prepend | pa1/english_dictionary.py:110 | the i-th result is the character followed by the i-th suffix |
| Autocomplete.PrependMembers | pa1/english_dictionary.py:110 | s is produced exactly when it is the character followed by a child suffix |
| Autocomplete.SuffixesOfMembers | pa1/english_dictionary.py:107-112 | the loop collects exactly a child's character followed by one of that child's suffixes |
| Autocomplete.SuffixesAreLeaves | pa1/english_dictionary.py:103-112 | `get_completion_suffix` lists exactly the paths from the node to a childless node |
| Autocomplete.EnglishDictionary.GetCompletionSuffix | pa1/english_dictionary.py:103-112 | the loop over the children in insertion order returns `Suffixes` of the node |
| Autocomplete.CompletionNodeAt | pa1/english_dictionary.py:94-100 | following the prefix and then listing suffixes lists the suffixes of the node the prefix leads to, or nothing |
| Autocomplete.NodeAtConcat | pa1/english_dictionary.py:94-100 | the path p then q is the path p + q |
| Autocomplete.EnglishDictionary.GetCompletionNode | pa1/english_dictionary.py:94-100 | the recursion returns `CompletionNode` |
| Autocomplete.MissingPrefix | pa1/english_dictionary.py:97-100 | a prefix that is not a path has no completions |
| Autocomplete.NonEmpty | pa1/english_dictionary.py:92 | the filter keeps exactly the non-empty suffixes |
| Autocomplete.Completions | pa1/english_dictionary.py:91-92 | no completion is the empty string |
| Autocomplete.EnglishDictionary.GetCompletions | pa1/english_dictionary.py:77-92 | the method returns `Completions` of the trie |
| Autocomplete.CompletionsAreLeaves | pa1/english_dictionary.py:91-112 | s is a completion exactly when s is non-empty and prefix + s leads to a childless node |
| Autocomplete.CompletionIsWord | pa1/english_dictionary.py:91-112 | in a trie built by adding words, prefix + s is a word for every completion s |
| Autocomplete.ProperPrefixNotCompleted | pa1/english_dictionary.py:104-105 | a string whose node has a child is never a completion, so a word that is a proper prefix of another is never offered |
| Courses.BuildTermsQuery | pa3/ui/courses.py:136-162 | several words: the words go to the front of args, last first, `where` and the caller's `on` are untouched, and the join is returned; one word: appended with one WHERE condition, "catalog_index" returned; no word: IndexError with nothing changed |
| Courses.TermsMarks | pa3/ui/courses.py:144-152 | k further words give k + 1 word conditions with one placeholder each |
| Courses.TermsQueryMarks | pa3/ui/courses.py:139-157 | the join for k + 1 words holds exactly k + 1 placeholders |
| Courses.TermsArgsMatchMarks | pa3/ui/courses.py:136-162 | the terms filter adds exactly as many arguments as placeholders |
| Courses.ProcessDeptTerms | pa3/ui/courses.py:109-117 | "courses.title" is selected once; a department adds one condition and its argument; terms add the catalog join condition and the relation from `build_terms_query`, or propagate its IndexError |
| Courses.DeptTermsMarks | pa3/ui/courses.py:109-117 | the department condition holds one placeholder for its one argument; the catalog join condition holds none |
| Courses.ProcessDay | pa3/ui/courses.py:180-191 | every day is appended to args in order with one condition; an empty list raises IndexError |
| Courses.InListMarks | pa3/ui/courses.py:186-190 | the IN list for m days holds m placeholders |
| Courses.DayClauseMarks | pa3/ui/courses.py:180-191 | the day condition holds one placeholder per day appended |
| Courses.ProcessTime | pa3/ui/courses.py:208-211 | one condition is appended, `>=` for time_start and `<=` otherwise; args is not touched |
| Courses.TimeClauseMarks | pa3/ui/courses.py:208-211 | each time condition holds one placeholder, for the one argument `find_courses` appends after the call (lines 65-66) |
| Courses.ProcessRelations | pa3/ui/courses.py:228-231 | "meeting_patterns" and "sections" join the relations with their two join conditions |
| Courses.MarksPair | pa3/ui/courses.py:228-231 | the placeholders of two clauses are those of each |
| Courses.RelationsTablesMarks | pa3/ui/courses.py:228-229 | the two tables added hold no placeholder |
| Courses.RelationsJoinMarks | pa3/ui/courses.py:230-231 | the two join conditions added hold no placeholder, as no argument is added |
| Courses.ProcessEnroll | pa3/ui/courses.py:250-255 | one select item, one bound on enrollment and the value as argument |
| Courses.EnrollClauseMarks | pa3/ui/courses.py:250-255 | each enrollment condition holds one placeholder |
| Courses.BuildDistanceQuery | pa3/ui/courses.py:312-317 | one join condition, the building and walking-time columns, two conditions and their two arguments in order |
| Courses.DistanceMarks | pa3/ui/courses.py:314-317 | the two distance conditions hold two placeholders |
| Courses.ConstructQuery | pa3/ui/courses.py:272-292 | the query is SELECT and FROM, then ON exactly when `on` is non-empty, then WHERE when `where` is non-empty or both lists are empty, then COLLATE NOCASE |
| Courses.QueryMarks | pa3/ui/courses.py:272-292 | the query holds exactly the placeholders of its clauses |
| Courses.CleanHeader | pa3/ui/courses.py:375-380 | the result is the part after the first "." or the whole string when there is none |

## Left out

- TrieNode: the nodes are modelled as values. A `Trie` holds a node's count, its final flag, its keys in insertion order, and its children. `_add_word_helper` is the function `Insert` on that value, and `EnglishDictionary` holds the root's value. The model therefore does not capture in-place updates to node objects or aliasing between nodes. The source never shares a node between two parents.
- File reading in the `EnglishDictionary` constructor: the file is given as its sequence of lines.
- `__repr__` (`pa1/english_dictionary.py`) and `__str__` (`pa5/Hash_Table.py`): string rendering only.
- The `__main__` drivers and `print_results`: argument handling, file reading and printing. The hash-table driver's two lookups are modelled as `Demo`.
- `math.log` is a parameter `ln`. The ratios are exact rationals and the sums are Dafny reals, so float rounding is not modelled.
- The literal composition of `Markov` with `Hash_Table` is not modelled.
  - `Hash_Table` indexes its array with the key, so the string keys `Markov` passes would fail.
  - Its rehash would hash the integer counts.
  - `Markov`'s table is instead the string-keyed map with default that the table's docstrings describe.
  - `HASH_CELLS` is recorded as its cell count.
- HashTables.Init: the cell count is a `nat`. For a negative `cells` the
  source builds an empty list and stores the negative number as the
  capacity. The model does not capture this; the source only ever passes
  1 or 57.
- HashTables.UpdateF: `Hash_Table` values and `defval` are strings.
  - The source counts a `None` value in `size` but does not store it, so
    the slot still looks empty. The model does not capture this.
  - `hash_` raises `TypeError` on a value that is not a string during a
    rehash. The model does not capture this either.
- `Hash_Table` keys are integers. The TypeError a key of another type raises is not modelled.
- `find_courses` and `get_header`: sqlite connection, cursor, `create_function` and `fetchall` are database I/O.
- `haversine` and `compute_time_between`: floating-point trigonometry.
- The list helpers of `pa3/ui/courses.py` require the lists they change to be distinct objects, as `find_courses` creates them. Appending through two names for one list is not modelled.
- Query arguments are strings or integers (`Param`).
- The unused `days = tuple(value)` in `process_day` is left out.
- Python's `str.isspace` is modelled by a fixed list of whitespace characters (`Python.IsSpace`). There is no Unicode database.
- `pa4/record_linkage.py` is not part of this model.

## Findings

| source | as written | input that shows it | evidently intended | confidence | as-written member | corrected member |
|---|---|---|---|---|---|---|
| pa1/english_dictionary.py:75 | `num_completions` returns 0 for every prefix | a dictionary holding only "a", prefix "" | the number of words starting with the prefix, which is the `count` of the prefix's node (docstring at lines 57-63) | high; not executed | Autocomplete.NumCompletionsUndercounts | Autocomplete.EnglishDictionary.CountCompletions |
