# Photo organizer, modelled in Dafny

`organize_photos.py` sorts the `*.DNG` raw photos at the top level of a
directory into sub-folders named after the day each photo was taken
(`YYYY-MM-DD`). It asks the external metadata tool for the original capture
time (`-DateTimeOriginal`, printed as `%Y:%m:%d %H:%M:%S`). It cuts the value
out of the tool's `label: value` line, parses it with `datetime.strptime`,
creates the date folder with `mkdir(exist_ok=True)`, and moves the file there
with `shutil.move`. A file without a readable capture time is skipped. An
exception from `mkdir` or `shutil.move` is not caught and ends the run.

The model has eight modules:

- `Chars`: digits and Python's whitespace class.
- `DateTimes`: the proleptic Gregorian calendar, `datetime`'s validity check, and the `strftime("%Y-%m-%d")` folder name.
- `Strptime`: `strptime` with the pattern `%Y:%m:%d %H:%M:%S`.
  - It models the regular expression CPython builds for that pattern.
  - It includes every laxer spelling that expression accepts: one-digit fields, a space-padded day, and any run of whitespace for the space.
  - It includes `datetime`'s final validity check.
- `MetadataReader`: `get_date_taken` once the tool has run.
  - The tool run is a value: its exit status and output, or an exception.
  - The reader does `split(': ')[1]`, then `strip()`, then the parse.
- `FileTree`: the directory as a map from names to files and sub-directories, with `mkdir(exist_ok=True)` and `shutil.move`.
- `Organizer`: the whole run as a function (`Run`, one `Step` per listed name), with the properties of the loop proved as lemmas.
  - It takes what `get_date_taken` returns for each file (`Dates`) as a parameter, so its lemmas hold for any answers.
- `SourceDirectory`: the imperative form.
  - A `Directory` object has an `entries` map that `MakeDir` and `Move` update in place.
  - The loop `OrganizeDngFiles` calls `MetadataReader.DateTaken` for each candidate.
  - It is proved to compute exactly `Organizer.Run` for those answers (`DatesOf`).
- `Wrappers`: the `Option` type.

## Model

| member | source | states |
|---|---|---|
| DateTimes.DaysInMonth | organize_photos.py:29 | the month lengths `datetime` enforces: 28 to 31 days, and 29 exactly for February of a leap year |
| DateTimes.ValidInstances | organize_photos.py:29 | `datetime`'s range check: 29 February only in leap years (2000 yes, 1900 no), no 31 April, years 1 to 9999, hour below 24, minute and second below 60, month below 13 |
| DateTimes.FormatDate | organize_photos.py:64 | the folder name is 10 characters of the shape `DDDD-DD-DD` |
| DateTimes.FormatDateReadsBack | organize_photos.py:64 | the folder name's digits read back as the year, then the month, then the day, each zero-padded |
| DateTimes.FormatDateExample | organize_photos.py:64 | a photo taken on 14 May 2023 goes into `2023-05-14` |
| DateTimes.FormatDateSameDay | organize_photos.py:64 | two valid date-times get the same folder name if and only if they fall on the same calendar day, whatever the time |
| Strptime.Year | organize_photos.py:29 | `%Y` reads exactly four digits |
| Strptime.Month | organize_photos.py:29 | `%m` reads one or two characters and gives 1 to 12 |
| Strptime.Day | organize_photos.py:29 | `%d` reads one or two characters and gives 1 to 31 |
| Strptime.Hour | organize_photos.py:29 | `%H` reads one or two characters and gives 0 to 23 |
| Strptime.Minute | organize_photos.py:29 | `%M` reads one or two characters and gives 0 to 59 |
| Strptime.Second | organize_photos.py:29 | `%S` reads one or two characters and gives 0 to 61, before `datetime`'s own check |
| Strptime.Gap | organize_photos.py:29 | the space of the pattern consumes at least one character |
| Strptime.DatePart | organize_photos.py:29 | `%Y:%m:%d` takes 8 to 10 characters and gives a year up to 9999, a month 1 to 12 and a day 1 to 31 |
| Strptime.TimePart | organize_photos.py:29 | `%H:%M:%S` takes 5 to 8 characters and gives an hour up to 23, a minute up to 59 and a second up to 61 |
| Strptime.SkipSpacesStops | organize_photos.py:29 | skipping whitespace passes only whitespace and stops at the end or at a non-whitespace character |
| Strptime.GapSpaces | organize_photos.py:29 | the space of the pattern consumes a non-empty run of whitespace, and the whole run |
| Strptime.ReadGap | organize_photos.py:29 | conversely, any non-empty whitespace run followed by something else is consumed whole |
| Strptime.ParseDateTime | organize_photos.py:29 | whatever `strptime` returns is a valid date-time (year 1..9999, real day of the month, hour < 24, minute and second < 60) |
| Strptime.ParseRender | organize_photos.py:29 | every spelling the pattern allows (one- or two-digit fields, space-padded day, any whitespace run) reads back as the values it spells, and is accepted exactly when they form a real date-time |
| Strptime.ParseSpelling | organize_photos.py:29 | conversely, every accepted text is the spelling, in some allowed layout, of the date-time returned |
| Strptime.ParseAccepts | organize_photos.py:29 | `strptime` returns `dt` if and only if `dt` is valid and the text spells it in an allowed layout |
| Strptime.ParseRenderTrailing | organize_photos.py:29 | a leftover that starts with a non-digit after the seconds ("unconverted data remains") makes the parse fail |
| Strptime.TrailingRefused | organize_photos.py:29 | the same for any text that begins with a spelling and goes on past it with a non-digit |
| Strptime.ParseYearMonth | organize_photos.py:29 | a bare `YYYY:MM` is refused |
| Strptime.CalendarInstances | organize_photos.py:29 | 30 February, 29 February 2023 and second 60 are refused; 29 February 2024 is accepted |
| Strptime.HourAbove23 | organize_photos.py:29 | a time starting `24` to `29` fails at the hour: `%H` reads only the `2`, and the digit after it is not the colon |
| Strptime.ParseHourAbove23 | organize_photos.py:29 | so a text whose time starts with `24` to `29` is refused, whatever its date |
| Strptime.FormatTimestamp | organize_photos.py:22 | the tool's zero-padded `%Y:%m:%d %H:%M:%S` output is 19 characters |
| MetadataReader.FindSep | organize_photos.py:28 | the first `": "` at or after a position, or none there |
| MetadataReader.SecondPiece | organize_photos.py:28 | `split(': ')[1]` fails exactly when the output has no `": "`; the piece contains no `": "` |
| MetadataReader.SecondPieceOfLine | organize_photos.py:28 | for a label and value free of `": "`, the piece is the value, whether or not more pieces follow |
| MetadataReader.TrimStart | organize_photos.py:28 | removes exactly the leading whitespace run |
| MetadataReader.TrimEnd | organize_photos.py:28 | removes exactly the trailing whitespace run |
| MetadataReader.Strip | organize_photos.py:28 | `strip()` leaves no whitespace at either end and never lengthens |
| MetadataReader.TrimStartPadded | organize_photos.py:28 | removing leading whitespace from whitespace followed by a text that does not start with whitespace gives back that text |
| MetadataReader.TrimEndPadded | organize_photos.py:28 | the same at the other end |
| MetadataReader.StripPadded | organize_photos.py:28 | stripping gives back any text that has no whitespace at its ends, whatever whitespace surrounds it |
| MetadataReader.DateTaken | organize_photos.py:19-32 | `None` when the tool raised, exited non-zero, printed nothing or printed no `": "`; any date returned is valid |
| MetadataReader.DateTakenOfLine | organize_photos.py:26-29 | for a `label: value` line the result is exactly the parse of the value, whatever whitespace ends the line |
| MetadataReader.RenderNoSep | organize_photos.py:22-28 | a spelling without a space-padded day, followed by whitespace, contains no `": "`, so the split cannot cut it |
| MetadataReader.DateTakenRoundTrip | organize_photos.py:26-29 | a line `label: <date-time>` followed by whitespace gives back that date-time, for every spelling whose day is not space-padded |
| MetadataReader.DateTakenCanonical | organize_photos.py:22-29 | the round trip for the tool's own zero-padded output followed by a newline |
| MetadataReader.DateTakenOfCut | organize_photos.py:28-29 | when a second `": "` follows the value, only the value is parsed |
| MetadataReader.DateTakenSpacedDay | organize_photos.py:28-29 | a space-padded day is lost: the split stops at `: ` before it and the result is `None` |
| FileTree.MakeDir | organize_photos.py:69 | `mkdir(exist_ok=True)` fails exactly when a file holds the name, otherwise leaves a directory there, keeps an existing one as it is, creates an empty one, and changes no other entry |
| FileTree.Destination | organize_photos.py:72-74 | the moved file ends at `folder/name`, or at `folder/name/name` when `folder/name` is a directory |
| FileTree.MoveInto | organize_photos.py:72-74 | `shutil.move` fails exactly when the directory at `folder/name` already holds `name`; otherwise the file leaves the top level with its content intact at its destination, and nothing else at the top level, in the folder, or in a directory at `folder/name` changes |
| Organizer.CandidateInstances | organize_photos.py:51-53 | the glob `*.DNG` is case-sensitive and includes hidden names; a directory or a missing name is not a candidate |
| Organizer.PatternNotDateShaped | organize_photos.py:51 | no `*.DNG` name has the shape of a date folder |
| Organizer.Step | organize_photos.py:52-74 | one iteration only changes the directory for a regular `*.DNG` file that `get_date_taken` dates; a failed `mkdir` means a file holds the date folder's name; a failed move means the folder exists; a failed iteration changes nothing |
| Organizer.Run | organize_photos.py:51-74 | a run that ends in an exception names a listed file as the one that raised it |
| Organizer.RunStopped | organize_photos.py:51-74 | after an exception no later name is processed |
| Organizer.RunExtend | organize_photos.py:51 | one more listed name is one more step |
| Organizer.PatternKept | organize_photos.py:51-74 | the run never creates or changes a top-level `*.DNG` entry; it can only remove one |
| Organizer.StepFrame | organize_photos.py:52-74 | an iteration for another name changes nothing folders hold under this name, and leaves this name's top-level entry alone unless it is the date folder the iteration moved its file into |
| Organizer.RunFrame | organize_photos.py:51-61 | names that do not move keep what folders hold under them, and keep their top-level entry unless it is the date folder of a moved file; this covers other extensions, sub-directories, files without a capture time, unrelated date-named entries and everything inside sub-directories |
| Organizer.MoveFrameAt | organize_photos.py:72-74 | moving one file changes no `folder/name` entry other than its own destination |
| Organizer.RunOtherFolders | organize_photos.py:51-74 | whatever the outcome, the run changes an entry named `n` in no folder other than `n`'s own date folder |
| Organizer.StepMoves | organize_photos.py:64-74 | a completed iteration for a dated candidate puts it, content intact, at its date folder |
| Organizer.StepKeepsLanding | organize_photos.py:51-74 | later iterations leave a moved file where it landed |
| Organizer.RunLands | organize_photos.py:58-74 | after a completed run every listed dated candidate has left the top level and sits, under its own name and with its content, in its `YYYY-MM-DD` folder |
| Organizer.RunMovedIffDated | organize_photos.py:58-74 | after a completed run a listed candidate has left the top level if and only if `get_date_taken` gave it a date, and otherwise it is unchanged |
| Organizer.RunSameDayShareFolder | organize_photos.py:64-74 | two moved files taken on the same day end in the same folder |
| Organizer.AbortIndexSpec | organize_photos.py:51-74 | `AbortIndex` is the listed position of the file whose exception ended the run; the names before it completed, and the run's end state is that failed step's |
| Organizer.RunAborted | organize_photos.py:51-74 | after an exception, earlier dated candidates have moved; names not reached are untouched, at the top level unless they are the date folder of a file moved earlier; a failed `mkdir` means a file has the folder's name |
| Organizer.RunIdempotent | organize_photos.py:51-61 | with the same answers from `get_date_taken`, a second run over any listing of the result changes nothing |
| SourceDirectory.Directory.constructor | organize_photos.py:47 | the directory starts with the given entries |
| SourceDirectory.Directory.MakeDir | organize_photos.py:68-69 | updates the entries in place as `FileTree.MakeDir` describes, and reports the exception |
| SourceDirectory.Directory.Move | organize_photos.py:72-74 | updates the entries in place as `FileTree.MoveInto` describes, and reports the exception |
| SourceDirectory.Directory.ProcessEntry | organize_photos.py:52-74 | one loop body, which calls `MetadataReader.DateTaken`, leaves the entries and outcome that `Organizer.Step` gives for the answers of `DateTaken` |
| SourceDirectory.Directory.FileByDate | organize_photos.py:58-74 | the rest of the loop body once the date is known leaves the entries and outcome that `Organizer.Step` gives |
| SourceDirectory.Directory.OrganizeDngFiles | organize_photos.py:47-74 | the loop over the listing leaves exactly the entries and outcome of `Organizer.Run` for the answers of `MetadataReader.DateTaken`, so every `Organizer` lemma holds of it |

## Left out

- The run of the metadata tool through `subprocess.run` (organize_photos.py:21-25).
  - It is a foreign process, so each file's result is a parameter.
  - The parameter gives the exit status and decoded output, or `Raised` for an exception (the tool is missing, or its output does not decode).
  - How the tool reads the capture time from the file is not modelled.
- `debug_print`, the `DEBUG` flag and the `debug` parameter (organize_photos.py:9-15, 44-45, 48, 55, 60, 63, 65, 73). They only print.
- `check_exiftool`, `parse_args` and the command-line entry point (organize_photos.py:76-119). They probe for the tool, parse arguments and exit; they are not part of the organizing logic.
- The directory listing is a parameter of `OrganizeDngFiles`.
  - The model takes any order the system gives, and only a listing that names each entry once (`IsListing`).
  - Results that depend on order, such as which file an exception stops at, are stated for whatever order is given. Independence from the order is not proved.
- Filesystem detail outside a name-to-entry map:
  - symbolic links (`is_file()` follows them);
  - permissions, and errors other than the two modelled exceptions;
  - moves across devices (copy then delete);
  - case-insensitive matching of `*.DNG` on case-insensitive systems;
  - modification times and other metadata carried by the move.
- Strptime.ParseDateTime: the `\d` of Python's pattern also matches non-ASCII decimal digits. Only ASCII digits are modelled.
- DateTimes.FormatDate: always pads the year to four digits. Some platforms' `strftime("%Y")` prints years below 1000 without padding, and that variant is not modelled.
- Locale and the text decoding of the tool's output are not modelled. Universal-newline translation is covered only in that the line's ending is whitespace that `strip()` removes.
- MetadataReader.DateTakenRoundTrip: excludes a day written as a space and one digit, because for that spelling the result is `None` (`MetadataReader.DateTakenSpacedDay`).
