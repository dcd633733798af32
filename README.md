# Chunkbase–Xaero waypoint integration, modelled in Dafny

The tool reads coordinates that a seed-map site prints ("X: -6,652 Z: -5,420"),
a Minecraft teleport command ("/tp 7540 ~ -11516") or a Python tuple literal.
It turns them into waypoints of the Xaero minimap mod. This model covers four
parts of the tool:

- **The command console** (`Commands`, console.dfy). An input line is split on
  single spaces. Tokens that start with `--` are flags, and a flag that the
  command declares with a marker other than False takes the next token as its
  argument. The tokens after the last flag, or after its argument, rejoined
  with spaces, form the value. The command is accepted only when it is
  registered, all its flags are declared, and it has a value if it needs one.
  `add` chooses a coordinate parser from the first character of the value,
  applies its flags in order and hands the finished record to the store.
  `help` prints the registered commands, and `exit` ends the program.
- **The waypoint data** (`Waypoints`, waypoints.dfy):
  - the 16-colour palette and the three dimension keys `dim%0`, `dim%-1` and
    `dim%1`;
  - the record, a dictionary with thirteen keys in a fixed order;
  - the colon-separated line a record is written as, and the reading of that
    line back;
  - the layout of a waypoint file: three comment lines, then one line per
    record;
  - the store, which keeps one list of records per dimension and rewrites a
    dimension's file after every append.
- **The helpers** (`Helper`, helper.dfy):
  - `removeCommasFromNumber`: keep the digits and `-`, then call `int`;
  - `isValidIPv4Address`: a regular expression for four octets, or the
    literals `localhost` and `0`.
- **The coordinate converter** (`CoordinateConverter`, coordinates.dfy): the
  Overworld to Nether conversion and back, by a factor of 8.

The Python built-ins the core depends on are modelled as total functions in
`Builtins` (builtins.dfy):

- `str.split` keeps empty fields;
- `str.join`;
- `str(int)`;
- `int(str)`: an optional sign followed by ASCII digits;
- `str.upper` on one character.

Python semantics the model spells out:

- **`/` gives a float.** A coordinate component is `Int` or `Float`. Floats
  are exact reals, which is exact for game-range integers divided by 8.
  `int()` of a float truncates toward zero (`Trunc`).
- **Exceptions are results.** A parser returns `Result` or `Step`, and
  `runCommand` ends in a `RunOutcome`: `Returned(bool)`, `Exited` for
  `exit()`, or `Raised(error)` for an exception that propagates. This
  covers:
  - an empty value (IndexError);
  - a teleport command with too few tokens (IndexError);
  - a number that is not an integer literal (ValueError);
  - a tuple literal that `literal_eval` rejects, which leaves the
    coordinates unbound (UnboundLocalError);
  - an empty name with no initials (IndexError);
  - a coordinate pair left by `--inoverworld` with no later `--innether`
    (IndexError).
- **Dict insertion order.** The command registry is a Python dict, so it is
  modelled as its keys in insertion order plus a map. Re-registering a name
  keeps its position.
- **Records.** A record is the sequence of its thirteen values in key order.
  Both producers insert the keys in that order.
- **`ast.literal_eval`** is a parameter, `literalEval: string -> Option<Coordinates>`.
  `None` stands for the ValueError or SyntaxError it raises, which the code
  catches.
- **File reads and writes.** A read is a parameter: the file's text, or
  `None` for a missing file. A write is a returned value,
  `FileWrite(dimension, content, failure)`, where `failure` is the exception
  that interrupted the write. The content is then the header plus the lines
  written before the failure.

Where the code does something other than its own type annotations and
comments suggest, the model follows the code:

- `overworldToNether` is annotated `Tuple[int, int, int] -> Tuple[int, int, int]`
  (src/CoordinateConverter.py:4), but `/` gives floats, and the third
  component comes from the input's y (index 1), not z. So `(800, 63, -800)` becomes
  `(100.0, 128, 7.875)` (`OverworldToNetherExample`).
- `netherToOverworld` is annotated to return a triple
  (src/CoordinateConverter.py:7) but returns a pair, with no fixed y. A waypoint built after
  `--inoverworld` fails with IndexError when the record reads its z, unless
  a later `--innether` turns the pair back into a triple (`Finish`,
  `RoundTripShape`).
- `help <name>` tests whether "help" itself is registered, and prints the
  help text of `help`, whatever name was given (`HelpIgnoresValue`).
- The comment beside the unknown-flag check (src/Console.py:102) muses
  that a `continue` there would only end the inner loop. The code as written
  has `return False`, which rejects the whole command at the first
  undeclared flag (`UnknownFlagRejects`, `Console.CheckCommandValidity`).
- The default colour expression raises AttributeError (see Findings). The
  model uses the intended value `"10"`.

## Model

| member | source | states |
|---|---|---|
| Builtins.Split | src/Console.py:57 | `str.split` with a one-character separator: at least one field, and no field contains the separator |
| Builtins.JoinSplit | src/Console.py:57 | joining the fields of a split with the separator gives the original string back |
| Builtins.SplitJoin | src/Console.py:84 | splitting a join of separator-free fields gives the fields back |
| Builtins.NatToString | src/XaeroWaypoints.py:107 | `str(n)` of a natural number is a digit string with no leading zero |
| Builtins.IntToStringParses | src/XaeroWaypoints.py:107 | `int(str(n)) == n` for every integer |
| Builtins.CanonicalDecimalParses | src/XaeroWaypoints.py:107 | the text `str` would write for an integer parses, and `str` writes it back unchanged |
| Builtins.UpperCharNormalises | src/Console.py:170 | `upper` of one character never yields a lower-case ASCII letter, leaves a character alone exactly when it is not one, and is idempotent |
| Helper.NumbersAreNumberChars | src/helper.py:4 | the NUMBERS list holds exactly the ten digits and `-` |
| Helper.Filtered | src/helper.py:6-10 | the filtered text holds only digits and `-`, and is no longer than the input |
| Helper.RemoveCommasFromNumber | src/helper.py:3-11 | the character loop produces the filtered text passed to `int`: the same value, or the same ValueError |
| Helper.FilteredConcat | src/helper.py:6-10 | the filter acts on each character alone, so it distributes over concatenation |
| Helper.FilteredIdentity | src/helper.py:6-10 | text made only of digits and `-` passes through the filter unchanged |
| Helper.FilteredDropsSeparator | src/helper.py:6-10 | a comma between two runs of kept characters is dropped and nothing else changes |
| Helper.FilteredExample | src/helper.py:6-10 | `"-6,652"` filters to `"-6652"`, so the sign survives |
| Helper.RemoveCommasExample | src/helper.py:3-11 | `"-6,652"` reads as -6652 |
| Helper.RemoveCommasZeroGroupExample | src/helper.py:3-11 | `"-5,420"` reads as -5420 |
| Helper.RemoveCommasRejectsEmpty | src/helper.py:11 | text with nothing left after filtering (`""`, `","`) raises ValueError |
| Helper.RemoveCommasRejectsInnerSign | src/helper.py:11 | a `-` between digits survives the filter, so `"1-2"` raises ValueError |
| Helper.RemoveCommasOfIntString | src/helper.py:3-11 | applied to `str(n)`, the helper returns n for every integer |
| Helper.OctetIsByte | src/helper.py:14 | a string one octet alternative of the pattern matches is exactly what `str` writes for a number from 0 to 255 |
| Helper.ByteIsOctet | src/helper.py:14 | `str(n)` for every n from 0 to 255 matches an octet alternative |
| Helper.QuadIsValid | src/helper.py:13-17 | four bytes written with dots form an accepted address |
| Helper.DottedQuadIsFourBytes | src/helper.py:13-17 | conversely, every accepted dotted address is four bytes written with dots |
| Helper.IPv4RejectsLargeOctet | src/helper.py:14-17 | `256.1.1.1` is refused |
| Helper.IPv4RejectsLeadingZero | src/helper.py:14-17 | `01.2.3.4` is refused |
| Helper.IPv4RejectsThreeOctets | src/helper.py:14-17 | `1.2.3` is refused |
| Helper.IPv4RejectsTrailingDot | src/helper.py:14-17 | `1.2.3.4.` is refused |
| Helper.IPv4Accepts | src/helper.py:14-17 | `192.168.0.1`, `localhost` and `0` are accepted |
| CoordinateConverter.Div8 | src/CoordinateConverter.py:5 | `n / 8` is always a float, and eight times it is n |
| CoordinateConverter.Mul8 | src/CoordinateConverter.py:8 | `n * 8` keeps n's kind (int or float) and is eight times n |
| CoordinateConverter.OverworldToNether | src/CoordinateConverter.py:4-5 | a triple: x / 8, the fixed 128, and y / 8 (the input's second component) |
| CoordinateConverter.NetherToOverworld | src/CoordinateConverter.py:7-8 | a pair: x * 8 and the input's second component * 8 |
| CoordinateConverter.Trunc | src/XaeroWaypoints.py:107 | `int()` of a float truncates toward zero: the result is within 1 of the input, on the side of 0 |
| CoordinateConverter.XRoundTrip | src/CoordinateConverter.py:4-8 | converting to the Nether and back gives back the x value |
| CoordinateConverter.RoundTripShape | src/CoordinateConverter.py:4-8 | the round trip leaves a pair whose second component is 128 * 8 = 1024, not the original y or z |
| CoordinateConverter.OverworldToNetherExample | src/CoordinateConverter.py:4-5 | `(800, 63, -800)` becomes `(100.0, 128, 7.875)` |
| CoordinateConverter.TruncOfDiv8 | src/XaeroWaypoints.py:107 | `int(x / 8)` of an integer x is x divided by 8, rounded toward zero |
| Waypoints.ColorsAreIndices | src/XaeroWaypoints.py:5-21 | the palette is 16 entries, and each colour's number is its position, 0 to 15 |
| Waypoints.DimensionKeysDistinct | src/XaeroWaypoints.py:50-53 | `dim%0`, `dim%-1` and `dim%1` are pairwise distinct |
| Waypoints.NoNewlineInFormatLine | src/XaeroWaypoints.py:46-48 | the format comment between the two `#` lines is one line, so the header is exactly three lines |
| Waypoints.ConvertXaeroToPyPoint | src/XaeroWaypoints.py:84-103 | reading succeeds exactly when the line has at least 14 colon fields, and then the k-th value is the text of field k + 1; otherwise IndexError |
| Waypoints.ConvertedInPlace | src/XaeroWaypoints.py:107-112 | the dictionary the conversion leaves behind: every value stringified, or, when `int` raises on a coordinate, the non-coordinate values unchanged |
| Waypoints.ConvertPyPointToXaero | src/XaeroWaypoints.py:104-114 | the method returns the `waypoint:`-prefixed colon line (or the ValueError `int` raises) and the dictionary as it rewrote it in place |
| Waypoints.FieldsOfRead | src/XaeroWaypoints.py:84-103 | a record read from colon fields writes those same fields 1–13 back when its coordinates are canonical integers |
| Waypoints.LineRoundTrip | src/XaeroWaypoints.py:84-114 | a 14-field line starting with `waypoint` and holding canonical integer coordinates is read and written back unchanged |
| Waypoints.PointRoundTrip | src/XaeroWaypoints.py:84-114 | a record whose texts hold no colon is read back from its line as its stringified form |
| Waypoints.ConversionIdempotent | src/XaeroWaypoints.py:104-114 | converting an already converted record gives the same line and leaves it unchanged |
| Waypoints.NetherCoordinateStored | src/XaeroWaypoints.py:107 | after `overworldToNether`, the stored x is the overworld x divided by 8, rounded toward zero |
| Waypoints.FirstFailure | src/XaeroWaypoints.py:120-121 | the number of leading records that convert: all before it convert and the one at it raises |
| Waypoints.WriteXaeroWaypointFile | src/XaeroWaypoints.py:116-121 | the file holds the header and then one line plus newline per record, up to the first record that raises; that record's exception is reported |
| Waypoints.ParseXaeroWaypointFile | src/XaeroWaypoints.py:72-82 | a missing file gives None; otherwise the records of the lines after the 3 header lines without the last field of `split("\n")`, or IndexError if one line is short |
| Waypoints.RecordLinesOfContent | src/XaeroWaypoints.py:76 | `split("\n")[3:-1]` of a written file gives back exactly the written record lines |
| Waypoints.FileRoundTrip | src/XaeroWaypoints.py:72-121 | writing records whose texts hold no colon or newline and reading the file back gives their stringified forms, in order |
| Waypoints.NoNewlineInLine | src/XaeroWaypoints.py:111-114 | a record whose texts hold no newline is written as one line |
| Waypoints.Appended | src/XaeroWaypoints.py:123-135 | appending to a dimension extends that dimension's list by the record and leaves the other two alone; an unknown key changes nothing |
| Waypoints.WriteOf | src/XaeroWaypoints.py:124-135 | a file is rewritten exactly when the key names a dimension |
| Waypoints.AppendedStorable | src/XaeroWaypoints.py:123-132 | appending a well-formed record keeps all three lists well formed |
| Waypoints.XaeroWaypoints.constructor | src/XaeroWaypoints.py:65-67 | the store holds the three lists read for the selected map |
| Waypoints.XaeroWaypoints.AddWaypoint | src/XaeroWaypoints.py:123-135 | the lists become `Appended` of the old ones, and the returned write is the new list of that dimension written out (none for an unknown key) |
| Commands.RegisterUpdates | src/Console.py:108-109 | registering binds the name and keeps every other binding; the keys stay distinct, an existing key keeps its place and a new one goes last |
| Commands.FlagsUpToExact | src/Console.py:62-73 | the flags found among the first n tokens are exactly the `--` tokens there, in increasing token order, each recorded as `MakeFlag` records it |
| Commands.FlagDetection | src/Console.py:57-73 | each parsed flag is its token and index; it has an argument exactly when the command declares it with a marker other than False and a next token exists; the argument is that token and its index is the next index; no `--` token is missed |
| Commands.ParsedFlagsPaired | src/Console.py:65-73 | a flag's argument and the argument's index are set together |
| Commands.FlagsBeforeValue | src/Console.py:76-81 | the value starts after every flag token, and after the last flag's argument |
| Commands.TrailingValue | src/Console.py:76-84 | when tokens remain, splitting the value on spaces gives back exactly those tokens |
| Commands.UnknownFlagRejects | src/Console.py:99-102 | one undeclared flag, at any position, makes the command invalid |
| Commands.AcceptedLine | src/Console.py:95-106 | an accepted line names a registered command, all its flags are declared, and every flag with an argument is declared to take one |
| Commands.ReadNumbers | src/Console.py:15-17 | the numbers read left to right with `removeCommasFromNumber`, or ValueError when one of the texts does not read |
| Commands.ParseStringCoordinates | src/Console.py:12-20 | the program exits exactly when the line has neither 4 nor 6 tokens; with 4 tokens the result is (token 1, 63, token 3) read by `removeCommasFromNumber`, with 6 tokens (token 1, token 3, token 5), and it fails with ValueError exactly when one of them does not read |
| Commands.LabeledExample | src/Console.py:12-15 | `"X: -6,652 Z: -5,420"` reads as (-6652, 63, -5420) |
| Commands.ParseTeleportCommand | src/Console.py:22-26 | the result is `(int(t[1]), 63 or int(t[2]), int(t[3]))`, given exactly when there are at least 4 tokens and each of those tokens reads; fewer than 3 tokens raise IndexError; a bad x, then a bad y, raises ValueError before a missing z raises IndexError; a bad z raises ValueError |
| Commands.TeleportSignedTokensExample | src/Console.py:22-26 | `"/tp +05 ~ -0"` reads as (5, 63, 0): a plus sign, a leading zero and a negative zero are read as `int` reads them |
| Commands.TeleportBadXBeforeMissingZ | src/Console.py:26 | `"/tp a ~"` raises ValueError, because x is read before z is looked up |
| Commands.LabeledRoundTrip | src/Console.py:12-15 | `"X: x Z: z"` for integers x and z reads as (x, 63, z) |
| Commands.LabeledRoundTripWithY | src/Console.py:16-17 | `"X: x Y: y Z: z"` reads as (x, y, z) |
| Commands.TeleportRoundTrip | src/Console.py:22-26 | `"/tp x ~ z"` reads as (x, 63, z) |
| Commands.TeleportRoundTripWithY | src/Console.py:22-26 | `"/tp x y z"` reads as (x, y, z) |
| Commands.TeleportMissingZ | src/Console.py:26 | `"/tp x ~"` raises IndexError |
| Commands.SelectCoordinates | src/Console.py:117-133 | a value starting with `X` goes to the labeled parser and one starting with `/` to the teleport parser, whose error propagates; a parenthesised value that `literal_eval` rejects leaves the coordinates unbound (UnboundLocalError), one that is not a triple makes `add` return False; any other value makes `add` return False; a result is always a triple |
| Commands.DimensionOf | src/Console.py:151-160 | a `--dimension` argument names a dimension exactly when it is `overworld`, `nether` or `the_end`, which map to `dim%0`, `dim%-1` and `dim%1` |
| Commands.ApplyFlag | src/Console.py:142-167 | `--innether` converts the coordinates to the Nether and selects the Nether; `--inoverworld` converts back and selects the Overworld; `--dimension` selects the named dimension or fails when it names none; `--name`, `--initial` and `--color` set their field; any other flag changes nothing |
| Commands.ApplyFlags | src/Console.py:141-167 | applying the flags in order keeps the dimension valid and the coordinates at least a pair |
| Commands.DimensionRejected | src/Console.py:151-160 | the flags fail exactly when one of them is a `--dimension` naming no dimension |
| Commands.LastFlagWins | src/Console.py:161-167 | the last `--name`, `--initial` or `--color` flag decides that field |
| Commands.LastDimensionFlagWins | src/Console.py:142-157 | the last of `--innether`, `--inoverworld` and `--dimension` decides the dimension |
| Commands.UnflaggedFieldsKept | src/Console.py:135-167 | a field that no flag sets keeps its default, and without a conversion flag the coordinates are those parsed |
| Commands.WaypointRecord | src/Console.py:172-186 | the record handed to the store is well formed |
| Commands.AddPlan | src/Console.py:117-186 | a record that `add` places is well formed and goes to a valid dimension key |
| Commands.DefaultColorIsTen | src/Console.py:138 | the intended default colour is `"10"`, the text of GREEN |
| Commands.AddAsWrittenRaises | src/Console.py:138 | as written, every `add` whose coordinates parse raises AttributeError before any flag is read |
| Commands.AddRejections | src/Console.py:117-160 | with the intended colour, once the coordinates parse, `add` returns False exactly when a `--dimension` names no dimension |
| Commands.AddRecordConstants | src/Console.py:179-185 | every placed record has "false" for disabled, rotate_on_tp and destination, 0 for type and tp_yaw, `gui.xaero_default` for set and "0" for visibility_type |
| Commands.FinishFields | src/Console.py:169-186 | the record carries the final name, coordinates and colour, and the given initials or else the upper-cased first character of the name |
| Commands.AddRecord | src/Console.py:135-186 | the placed record has the last `--name` and `--color` given, or "new waypoint" and "10"; without `--initial` its initials are the upper-cased first character of its name |
| Commands.AddInitials | src/Console.py:161-170 | the last `--initial` decides the initials when it took an argument; when it took none, the initials are the upper-cased first character of the name |
| Commands.AddCoordinates | src/Console.py:117-147 | without `--innether` and `--inoverworld`, the placed record holds the parsed coordinates |
| Commands.AddDimension | src/Console.py:139-160 | the record goes to the Overworld when no flag sets the dimension; otherwise the last `--innether`, `--inoverworld` or `--dimension` decides it |
| Commands.AddExample | src/Console.py:117-186 | the parsed command of `add --name Base --color 10 X: -6,652 Z: -5,420`, with `--name` and `--color` declared as taking an argument, places Base / B / (-6652, 63, -5420) / "10" in the Overworld |
| Commands.Listing | src/Console.py:201-202 | one `- name` line per key, in registration order |
| Commands.ListingExact | src/Console.py:201-202 | the listing holds a line for every registered command and no other line |
| Commands.HelpListsCommands | src/Console.py:199-203 | `help` with no value prints the header, one line per registered command and no other line, then the footer |
| Commands.HelpIgnoresValue | src/Console.py:189-198 | `help x` behaves the same whatever x is |
| Commands.Console.constructor | src/Console.py:50-53 | the registry starts empty, and there is no current input |
| Commands.Console.RegisterCommand | src/Console.py:108-110 | the registry becomes the old one with the name bound to the command; the current input is unchanged |
| Commands.Console.CheckCommandValidity | src/Console.py:95-106 | the loop with early returns answers exactly `IsValid`: registered, all flags declared, no missing required value |
| Commands.Console.HandleInput | src/Console.py:55-93 | the token loop builds `Parse` of the line; an accepted command is returned and becomes the current input; a rejected one returns False and changes nothing |
| Commands.Console.RunCommand | src/Console.py:113-206 | `add` follows `AddPlan` and stores exactly its record; `help` follows `Help`; `exit` exits; any other command changes nothing and returns True |
| Commands.Console.RunAdd | src/Console.py:117-187 | the flag loop builds the draft `ApplyFlags` specifies; the store changes only when a record is placed, and then by exactly that record |
| Commands.Console.StoreDraft | src/Console.py:169-186 | defaults the initials, builds the record and appends it to the store, or raises IndexError for an empty name or a coordinate pair |

## Left out

- Console input loop, configuration and start-up: src/main.py and
  src/config.py are not part of this model. Nor are the store's directory
  listing, its map selection via `input()` and its initial write
  (src/XaeroWaypoints.py:55-69). The store's constructor takes the three
  lists instead.
- Logging and `print(userCommand)` are not modelled. `exit()` is the
  outcome `Exited`.
- File I/O and paths. A write is modelled as the content it leaves. A file
  that is missing at start-up leaves its list `None` in Python, which would
  make a later `append` raise AttributeError. The model's lists always exist.
- Commands.Console.HandleInput: requires that no token is empty and that no
  token is a lone `-`. An empty token comes from two spaces in a row, a
  leading or trailing space, or an empty line; on it the source's `v[0]`
  raises IndexError. On a lone `-` its `v[1]` raises IndexError. The model
  does not represent these exceptions.
- Builtins.PyInt: accepts an optional sign and ASCII digits only. Python's
  `int` also accepts surrounding whitespace, underscores between digits and
  non-ASCII digits.
- Helper.IsValidIPv4Address: the regular expression's `$` also matches just
  before a trailing newline. "1.2.3.4\n" is accepted by Python but refused by
  the model.
- Floats are exact reals, not IEEE 754 doubles. `str` of a float is not
  modelled: a record may hold a float only in x, y or z, the only places the
  code converts with `int()`. `round()` of an int is the identity.
- `ast.literal_eval` is a parameter. Values that are not tuples of numbers,
  and exceptions other than ValueError and SyntaxError, are not modelled.
- Waypoints.XaeroWaypoints.AddWaypoint: `convertPyPointToXaero` rewrites the
  stored dictionaries in place during a write. The store keeps the records
  as appended. `ConversionIdempotent` shows that converting a stored record
  again gives the same line, so later writes produce the same file.
- Builtins.UpperChar: upper-cases ASCII letters only. Python's `str.upper`
  also maps other letters, and can return more than one character.
- Dictionary aliasing is not modelled: records and commands are values.
- Records with other keys or another key order are not modelled. Both
  producers build all thirteen keys in the same order.

## Findings

| source | as written | input that shows it | evidently intended | confidence | as-written member | corrected member |
|---|---|---|---|---|---|---|
| src/Console.py:138 | `str(XaeroWaypointColors.GREEN.value)`; GREEN is a plain int class attribute (src/XaeroWaypoints.py:16), so `.value` raises AttributeError | `add X: 1 Z: 2` (any `add` whose coordinates parse) | the default colour is the text of GREEN, `"10"` | not executed | Commands.AddAsWrittenRaises | Commands.AddRecord |
