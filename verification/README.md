# Listing normaliser, modelled in Dafny

This project models the part of the profitability calculator that turns scraped listing rows
into typed records, and proves what those conversions promise.

- `Address.from_location` splits a comma-separated location into trimmed segments. It reads
  the street and its number (digits or `s/n`) from the first segment, or the number from the
  second one. It keeps the last segments labelled `Distrito`, `Comarca` and `Barrio`, and
  then takes the city, region and autonomous community from the last three segments.
- `Details.from_raw_details` sends every text segment of every section through one long
  `if/elif` chain of keyword tests. Exactly one branch runs per segment. It fills a figure,
  raises an amenity flag, stores a text, or puts the segment into `extra`. A branch that
  needs a number and finds none raises.
- `Apartment.from_raw_apartment` copies the known outer columns verbatim. It parses
  `location` into an `Address` and decodes and parses `details` into `Details`.
- `get_digit` returns the first maximal run of digits of a text.
- `get_address_counter` counts, for each of the seven address fields, how many apartments
  share each value.

Files, one module each:

- `wrappers.dfy`: `Option` and `Result`.
- `text.dfy`: the `str` operations the code relies on. These are `split`, `strip`, `lower`,
  `replace`, `in` and `startswith`.
- `utils.dfy`: `get_digit`, `re.findall(r"(\d+)")` and the ordinal-floor search.
- `address.dfy`: the location parser and its street regular expression.
- `details.dfy`: the keyword chain and the fold over segments.
- `apartment.dfy`: the row conversion.
- `service.dfy`: the address histogram.

Modelling choices:

- Python exceptions become `Failure` values that say which input raised.
- Dictionaries whose iteration order matters are association lists in insertion order. These
  are the decoded details and the row.
- The fields of the `Details` dataclass are grouped by the kind of branch that writes them:
  figures, amenities and notes. The nine amenity booleans are held as the set of those that
  are `True`.
- The keyword chain is a table of 33 branches: 32 guarded ones plus the final `else`.
  `Classify` picks the first branch whose guard holds.
- `Details` is one flat record. Prices and community fees are copied from their cells as they
  are, with no number parsing.

## Model

| member | source | states |
|---|---|---|
| Text.TrimStart | profitability_calculator/src/model.py:34 | the result is a suffix of the input, everything cut off is whitespace, and the result does not start with whitespace |
| Text.TrimEnd | profitability_calculator/src/model.py:34 | the result is a prefix of the input, everything cut off is whitespace, and the result does not end with whitespace |
| Text.Strip | profitability_calculator/src/model.py:34 | the result is a middle slice of the input with only whitespace cut from both ends, and it neither starts nor ends with whitespace |
| Text.StripIdempotent | profitability_calculator/src/model.py:34-38 | stripping an already stripped segment changes nothing |
| Text.Split | profitability_calculator/src/model.py:34 | `split` gives one more part than there are separators |
| Text.SplitParts | profitability_calculator/src/model.py:34 | no part contains the separator, and joining the parts with it gives the input back |
| Text.SplitJoin | profitability_calculator/src/model.py:34 | splitting a join of separator-free parts gives the same parts back |
| Text.SplitSeparatorFree | profitability_calculator/src/model.py:34 | a text without the separator splits into itself alone |
| Text.Lower | profitability_calculator/src/model.py:153 | lower-casing keeps the length |
| Text.RemoveAll | profitability_calculator/src/model.py:145-148 | `replace(pattern, "")` never lengthens the text and leaves a text without the pattern unchanged |
| Utils.LeadingDigits | profitability_calculator/src/utils.py:6 | the greedy `\d+` at a position takes the longest all-digit prefix, stopping before a non-digit |
| Utils.LeadingDigitsUnique | profitability_calculator/src/utils.py:6 | any maximal all-digit prefix is the one taken |
| Utils.DigitsValue | profitability_calculator/src/model.py:128-130 | `int` of a run of `n` digits is below `10^n` |
| Utils.DigitsValueConcat | profitability_calculator/src/model.py:128-130 | positional notation: the value of `a + b` is the value of `a` shifted left by the length of `b`, plus the value of `b` |
| Utils.GetDigit | profitability_calculator/src/utils.py:5-9 | `None` exactly when the text has no digit, otherwise the first maximal run of digits |
| Utils.FirstDigitRunUnique | profitability_calculator/src/utils.py:6 | a text has only one first maximal run of digits |
| Utils.GetDigitIsFirstRun | profitability_calculator/src/utils.py:5-9 | `get_digit` returns `d` if and only if `d` is the first maximal digit run: non-empty, all digits, a substring with no digit before it and no digit right after it |
| Utils.AllDigitRuns | profitability_calculator/src/model.py:107-109 | `findall` yields non-empty all-digit runs, and none exactly when the text has no digit |
| Utils.AllDigitRunsKeepDigits | profitability_calculator/src/model.py:107-109 | the runs together are exactly the digits of the text in order, and the first run is what `get_digit` returns |
| Utils.AllDigitRunsWeave | profitability_calculator/src/model.py:107-109 | the text is the runs `findall` returns, interleaved with digit-free gaps, each gap between two runs non-empty |
| Utils.SeparatedRunsUnique | profitability_calculator/src/model.py:107-109 | any way of writing the text as non-empty digit runs between digit-free gaps, non-empty between two runs, gives exactly the runs `findall` returns |
| Utils.AllDigitRunsSeparated | profitability_calculator/src/model.py:107-109 | `findall` returns a list of runs if and only if the text is those runs separated by digit-free gaps: they are exactly the maximal digit runs, in order |
| Utils.OrdinalDigits | profitability_calculator/src/model.py:167-169 | the search for digits followed by `ª` fails exactly when no digit is followed by `ª`, and otherwise finds the first maximal run followed by it |
| Addresses.LocationParts | profitability_calculator/src/model.py:34 | one segment per comma plus one, each the stripped piece of the split |
| Addresses.SeparatorRun | profitability_calculator/src/model.py:36 | `[\s,-]+` takes the whole leading run of separators |
| Addresses.NumberSuffix | profitability_calculator/src/model.py:36 | the optional group followed by `$` captures a number exactly when the text is separators, then digits or `s/n`, then the end, possibly before a final newline |
| Addresses.LazyStreet | profitability_calculator/src/model.py:36 | the lazy `(.*?)` stops at the first position where the rest of the pattern matches, and fails only at a newline it cannot cross |
| Addresses.StreetPattern | profitability_calculator/src/model.py:36-37 | group 1 is the shortest newline-free prefix after which the number group and `$` match; the match fails exactly when the scan meets a newline before any position where it could stop, so it always succeeds on a text without newlines |
| Addresses.SecondSegmentIsNumber | profitability_calculator/src/model.py:45 | definition, no contract: the segment starts with a digit, or with `-` and a digit, or is `s/n` followed by the end or a final newline |
| Addresses.SecondSegmentExamples | profitability_calculator/src/model.py:45 | the alternation binds loosest: `12`, `-3`, `4 bis`, `s/n` and `s/n` with a final newline pass; `s/n bis`, `Madrid` and `-` do not |
| Addresses.LastWithPrefix | profitability_calculator/src/model.py:48-54 | the last segment starting with a label word, or `None` when no segment does |
| Addresses.Label | profitability_calculator/src/model.py:49-54 | a segment starting with `Distrito`, `Comarca` or `Barrio` stores itself under that label whatever the order of the tests; any other segment changes nothing |
| Addresses.ScanLabels | profitability_calculator/src/model.py:48-54 | the loop over the segments leaves street, number, city and autonomous community alone |
| Addresses.LabelWordsExclusive | profitability_calculator/src/model.py:49-54 | the three label words exclude one another, so the `elif` order hides no label |
| Addresses.ScanLabelsFindsLast | profitability_calculator/src/model.py:48-54 | after the loop, district, region and neighbourhood hold the last segment with their word, or their earlier value, and no other field changes |
| Addresses.StreetName | profitability_calculator/src/model.py:38-41 | the street is the stripped group 1, and it is `None` exactly when there is no match or the name starts with `Barrio` |
| Addresses.FromLocation | profitability_calculator/src/model.py:22-60 | the parse fails exactly when there are fewer than three segments, and the error gives their count |
| Addresses.FromLocationLayout | profitability_calculator/src/model.py:48-58 | city, region and autonomous community are the last three segments, even after a `Comarca` label set the region; district and neighbourhood are the last labelled segments |
| Addresses.FromLocationStreet | profitability_calculator/src/model.py:36-41 | the street is the stripped name captured in the first segment unless it is a `Barrio` label |
| Addresses.FromLocationNumber | profitability_calculator/src/model.py:36-46 | the number is the one captured in the first segment (digits or `s/n`); when none is captured it is the whole second segment if that segment passes the number test, and `None` otherwise |
| DetailsParser.RuleAt | profitability_calculator/src/model.py:106-218 | the branch tried at each position of the chain has that rank |
| DetailsParser.Guard | profitability_calculator/src/model.py:106-218 | definition, no contract: the keyword test of each branch of the chain, with `lower()` where the code uses it and the section name only for the certificate-consumption test |
| DetailsParser.OrderAt | profitability_calculator/src/model.py:106-218 | every guarded branch appears in the chain, at its own rank |
| DetailsParser.RankInjective | profitability_calculator/src/model.py:106-225 | no two branches share a position in the chain |
| DetailsParser.FirstFiring | profitability_calculator/src/model.py:106-225 | the branch chosen from a position on has a holding guard, and every guard between that position and it fails |
| DetailsParser.Classify | profitability_calculator/src/model.py:106-225 | the branch a segment runs has a holding guard, and every earlier guard fails |
| DetailsParser.FirstGuardUnique | profitability_calculator/src/model.py:106-225 | two branches that both hold with every earlier guard failing are the same branch |
| DetailsParser.ClassifyUnique | profitability_calculator/src/model.py:106-225 | any branch whose guard holds, with every earlier guard failing, is the one that runs |
| DetailsParser.FirstNumber | profitability_calculator/src/model.py:117-119 | `re.search(r"(\d+)", v).group(1)` raises exactly when `v` has no digit, and the error names the segment; otherwise it reads the first maximal digit run as a number |
| DetailsParser.FloorNumber | profitability_calculator/src/model.py:167-169 | the ordinal search raises exactly when no digit is followed by `ª`, and the error names the segment; otherwise it reads the first maximal digit run followed by `ª` as a number |
| DetailsParser.Measure | profitability_calculator/src/model.py:106-185 | the figure branches raise exactly on the segments where the number they need is missing |
| DetailsParser.Run | profitability_calculator/src/model.py:106-225 | a branch raises exactly on the segments it cannot read; the final `else` stores the segment in `extra` and changes nothing else, and the energy-line branch changes nothing |
| DetailsParser.Note | profitability_calculator/src/model.py:142-225 | definition, no contract: what each descriptive branch stores: the segment itself, the segment without `Orientación `, a fixed elevator value, or a cleared certificate |
| DetailsParser.RunSets | profitability_calculator/src/model.py:106-185 | a branch that writes a figure, the elevator or the orientation stores there the value it reads, and every other branch leaves that field as it was |
| DetailsParser.StoredFirstRun | profitability_calculator/src/model.py:116-134 | the area, bathroom, construction-year and energy branches store the first maximal digit run read as a number |
| DetailsParser.StoredFloor | profitability_calculator/src/model.py:163-169 | the floor branch stores 0 for `Entreplanta ` or `Bajo`, and otherwise the first maximal digit run followed by `ª` |
| DetailsParser.Apply | profitability_calculator/src/model.py:105-225 | one segment raises exactly when its branch raises; a segment no guard recognises only sets `extra` |
| DetailsParser.RunRaises | profitability_calculator/src/model.py:135-218 | a branch only ever sets amenity flags to `True`, and only its own |
| DetailsParser.RunWrites | profitability_calculator/src/model.py:142-225 | a text field receives the whole segment from its own branch and is left alone by every other branch |
| DetailsParser.RunCertificate | profitability_calculator/src/model.py:186-199 | only the two certificate branches touch the certificate: one clears it, the other stores the segment |
| DetailsParser.RoomsCount | profitability_calculator/src/model.py:124-130 | a rooms segment with `Sin ` sets zero rooms, and any other sets its first maximal digit run |
| DetailsParser.JointAreasBoth | profitability_calculator/src/model.py:106-114 | the joint-area line never raises and sets both areas only when it holds exactly two numbers, which are then all its digits in order; otherwise it changes nothing |
| DetailsParser.TerraceAndBalconySetsBoth | profitability_calculator/src/model.py:135-141 | a segment that reaches the `Terraza y balcón` test sets both flags; it also contains the later `Terraza` word, while its lower-case `balcón` would not pass the `Balcón` test |
| DetailsParser.ApplyKeepsCertificateShape | profitability_calculator/src/model.py:186-199 | one pass keeps the certificate unset or an exempt or in-process status |
| DetailsParser.StatusIsExemptOrPending | profitability_calculator/src/model.py:188-199 | a status segment that passed the energy-line test contains `Inmueble exento` or `En trámite` |
| DetailsParser.SegmentsComplete | profitability_calculator/src/model.py:103-105 | the two loops visit a (name, segment) pair exactly when some section of that name lists the segment |
| DetailsParser.ApplyAllFails | profitability_calculator/src/model.py:103-225 | the loop raises exactly when some segment's branch raises, and the error names such a segment |
| DetailsParser.LastOf | profitability_calculator/src/model.py:103-105 | the value of the last segment a branch runs on, or `None` when it runs on none |
| DetailsParser.LastStored | profitability_calculator/src/model.py:103-105 | the value stored by the last segment whose branch writes a field, or `None` when no branch writes it |
| DetailsParser.ApplyAllRaises | profitability_calculator/src/model.py:103-218 | a flag ends up set exactly when it was set before or some segment's branch raises it |
| DetailsParser.ApplyAllWrites | profitability_calculator/src/model.py:103-225 | each text field ends up holding the last segment its branch ran on, or its earlier value |
| DetailsParser.ApplyAllSets | profitability_calculator/src/model.py:103-185 | each figure, the elevator and the orientation end up holding what the last segment writing them stored, or their earlier value |
| DetailsParser.ApplyAllKeepsCertificateShape | profitability_calculator/src/model.py:103-199 | the certificate keeps its shape through the whole loop |
| DetailsParser.FromRawDetails | profitability_calculator/src/model.py:97-227 | definition, no contract: the loop run over every segment from a record with every field unset; its contracts are the `FromRawDetails…` lemmas below |
| DetailsParser.FromRawDetailsFails | profitability_calculator/src/model.py:97-227 | the conversion raises exactly when some segment's branch finds no number, and the error names such a segment |
| DetailsParser.FromRawDetailsFlags | profitability_calculator/src/model.py:89-218 | each amenity flag starts `False` and ends `True` exactly when some segment's branch raises it |
| DetailsParser.FromRawDetailsText | profitability_calculator/src/model.py:102-225 | each text field, `extra` included, holds the last segment its branch ran on, or `None` |
| DetailsParser.FromRawDetailsValues | profitability_calculator/src/model.py:97-227 | each figure, the elevator and the orientation hold what the last segment writing them stored, or `None` |
| DetailsParser.FromRawDetailsCertificate | profitability_calculator/src/model.py:186-199 | the certificate is never `No indicado` nor an energy line: it is unset, or an exempt or in-process status |
| DetailsParser.ApplyOutsideFloor | profitability_calculator/src/model.py:163-171 | a segment that reaches the floor test, has a floor it can read and says `exterior` sets that floor and `inside` to `False` |
| DetailsParser.ApplyOrientation | profitability_calculator/src/model.py:144-148 | a segment that reaches the orientation test stores what is left once `Orientación ` is removed |
| DetailsParser.BathroomsLineExample | profitability_calculator/src/model.py:131-134 | `2 baños` sets two bathrooms |
| DetailsParser.NoElevatorLineExample | profitability_calculator/src/model.py:159-160 | `Sin ascensor` sets the elevator to `False` |
| DetailsParser.WithElevatorLineExample | profitability_calculator/src/model.py:161-162 | `Con ascensor` sets the elevator to `True` |
| DetailsParser.OrientationLineExample | profitability_calculator/src/model.py:144-148 | `Orientación sur` stores the orientation `sur` |
| DetailsParser.FloorLineExample | profitability_calculator/src/model.py:163-171 | `planta 3ª exterior` sets floor 3 and `inside` to `False` |
| Apartments.OuterFieldOf | profitability_calculator/src/model.py:265-273 | `outer_keys_map` sends a column to a field exactly when that field is copied from that column |
| Apartments.SetOuter | profitability_calculator/src/model.py:283 | storing into one outer field changes that field and no other |
| Apartments.ParseLocation | profitability_calculator/src/model.py:279-280 | `location` parses exactly when it is text with at least three segments, into the parsed address |
| Apartments.ParseDetails | profitability_calculator/src/model.py:284-288 | `details` parses exactly when it is text, decodes as JSON, and converts without raising, into the converted details |
| Apartments.Parse | profitability_calculator/src/model.py:278-288 | the parsing half of one pass raises exactly when a `location` or `details` column cannot be parsed, and changes only address and details |
| Apartments.Copy | profitability_calculator/src/model.py:282-283 | the copying half of one pass puts the cell into the field mapped from the column and changes no other field |
| Apartments.Visit | profitability_calculator/src/model.py:278-288 | one pass raises exactly when the column is an unparsable `location` or `details` |
| Apartments.VisitCopies | profitability_calculator/src/model.py:282-283 | one pass copies a column into its own outer field and no other |
| Apartments.VisitAddress | profitability_calculator/src/model.py:279-280 | only a `location` column changes the address |
| Apartments.VisitDetails | profitability_calculator/src/model.py:284-288 | only a `details` column changes the details |
| Apartments.LastValue | profitability_calculator/src/model.py:278 | the cell of the last column with a given name, or `None` when there is none |
| Apartments.BuildFails | profitability_calculator/src/model.py:278-288 | the loop raises exactly when some `location` or `details` column cannot be parsed |
| Apartments.BuildCopies | profitability_calculator/src/model.py:278-283 | each outer field holds the cell of the last column of its name, or its earlier value |
| Apartments.BuildAddress | profitability_calculator/src/model.py:275-280 | the address comes from the last `location` column, or keeps its earlier value |
| Apartments.BuildDetails | profitability_calculator/src/model.py:276-288 | the details come from the last `details` column, or keep their earlier value |
| Apartments.KnownColumns | profitability_calculator/src/model.py:282-284 | the known columns of a row are exactly its columns that are mapped or named `details` |
| Apartments.UnknownColumnsIgnored | profitability_calculator/src/model.py:282-288 | columns that are neither mapped nor `details` are ignored: dropping them changes nothing |
| Apartments.VisitUnknown | profitability_calculator/src/model.py:278-288 | a pass over an unknown column changes nothing and cannot raise |
| Apartments.FromRawApartment | profitability_calculator/src/model.py:244-294 | definition, no contract: the loop over the columns run from an apartment with every field `None`; its contracts are the `FromRawApartment…` lemmas below |
| Apartments.FromRawApartmentParts | profitability_calculator/src/model.py:275-292 | the address is present exactly when the row has a `location` column, and the details exactly when it has a `details` column |
| Apartments.FromRawApartmentFails | profitability_calculator/src/model.py:244-294 | the conversion raises exactly when some `location` or `details` column cannot be parsed |
| Apartments.FromRawApartmentCopies | profitability_calculator/src/model.py:255-290 | each outer field holds the verbatim cell of the last column mapped to it, or `None` |
| Service.NamesDistinct | profitability_calculator/src/service.py:5-19 | the seven fields are counted under seven different keys |
| Service.FieldsComplete | profitability_calculator/src/service.py:5-19 | the field list names every address field, each once |
| Service.Bump | profitability_calculator/src/service.py:25 | counting a value adds one to that value and changes no other count |
| Service.CurrentKeepsTally | profitability_calculator/src/service.py:23-24 | the reset on a falsy tally only replaces an empty tally by an empty one, so no count is lost |
| Service.PutTally | profitability_calculator/src/service.py:22-25 | one pass of the inner loop bumps its own field's tally and leaves every other key alone |
| Service.PutAllKeys | profitability_calculator/src/service.py:22-25 | the inner loop adds a key for each field and drops none |
| Service.PutAllTallies | profitability_calculator/src/service.py:22-25 | the inner loop bumps each listed field's tally once and keeps the others |
| Service.CountAllFails | profitability_calculator/src/service.py:20-27 | the loop raises exactly when some apartment has no address, and an empty list gives an empty dict |
| Service.CountAllFirstMissing | profitability_calculator/src/service.py:21-25 | when the loop raises, it names the first apartment without an address |
| Service.CountAllKeys | profitability_calculator/src/service.py:20-25 | on a non-empty list the keys are exactly the names of the counted fields |
| Service.CountAllTally | profitability_calculator/src/service.py:20-25 | each field's tally gives every value the number of apartments having it, `None` included, and holds no other value |
| Service.AddressCounter | profitability_calculator/src/service.py:4-27 | definition, no contract: the counting loop over the seven address fields; its contracts are the two `AddressCounter…` lemmas below |
| Service.AddressCounterFails | profitability_calculator/src/service.py:4-27 | the counter raises exactly when some apartment has no address, naming the first one, and an empty list gives an empty dict |
| Service.AddressCounterCounts | profitability_calculator/src/service.py:4-27 | a non-empty list gives a tally under each of the seven names and nothing else, each the multiset of that field's values |
| Service.AddressCounterTotals | profitability_calculator/src/service.py:21-25 | the counts kept under a field's name, summed over any duplicate-free list of values covering that field, equal the number of apartments: every apartment is counted once |

## Left out

- Logging: the warning logged for an unrecognised segment and `logging.basicConfig` are side
  effects only.
- `fetch_table`, the SQLite connection and the `__main__` entry point are database and process
  I/O. They are not part of this model.
- JSON decoding: `json.loads` is the parameter `decode`, which gives `None` on invalid JSON.
  Decoded details are taken to be a mapping from section names to lists of strings. Any other
  JSON shape is not modelled.
- Digits: only ASCII digits are modelled. Python's `\d` in `re`, and the `int()` and `float()`
  calls that read its matches, also accept other Unicode decimal digits.
- `str.lower()` is modelled for ASCII and Latin-1 capitals only. That is enough for the two
  needles it is compared with, "calefacción" and "planta ".
- Floats: areas and energy figures are naturals read from a run of digits. Python's
  `float(run)` (model.py:117-123, 179-185) equals the run's value only up to 2^53; longer runs
  round to the nearest double, and runs of more than about 309 digits give `inf`. Rounding and
  `inf` are not modelled.
- Long runs: CPython's `int()` refuses a string of more than 4300 digits with `ValueError`
  (model.py:108, 128, 132, 150, 167). The model reads runs of any length, so it raises only
  where the code finds no digit at all.
- DetailsParser.StoredFirstRun: states the exact value of the run, which is what Python computes
  for runs of at most 4300 digits and, for the four `float` fields, values of at most 2^53.
- DetailsParser.FromRawDetailsValues: inherits the same two limits from `StoredFirstRun`.
- DetailsParser.FirstNumber: raises only when the segment has no digit; the `ValueError` of a
  run longer than 4300 digits is not modelled.
- DetailsParser.FloorNumber: the same, for the ordinal run of the floor line.
- DetailsParser.Measure: the same, for every figure branch.
- Cells: a non-`NULL` SQLite cell is text or an integer. `REAL` and `BLOB` cells are not
  modelled. Any non-text cell fails where the code calls a string method on it.
- Duplicate keys: rows and decoded details are association lists, so they can hold a key twice,
  which a Python `dict` cannot. Such inputs have no Python counterpart. The model processes
  every entry. The details loop runs every section of every name. A row's loop parses every
  `location` and `details` column, so an unparsable earlier duplicate raises even when a later
  one would parse. For copied columns, the last one wins.
- Text.Lower: only the length is stated. Case mapping is a character table, with nothing further
  to prove.
- Text.Split: the part count is stated on the function. The content of the parts is stated in
  `Text.SplitParts` and `Text.SplitJoin`.
- Text.RemoveAll: the exact content of the result is not stated. Only the property the keyword
  chain needs is proved: that the text never lengthens and is unchanged when the pattern is
  absent.
