# go-week weekly report generator, modelled in Dafny

go-week creates a Markdown weekly report from a template. For "this week" or "last week" it works out four strings:
- the two-digit ISO week number;
- the Monday and the Friday of that week, as `YYYY/MM/DD`;
- the reference day's month, as `YYYY-MM`.

It substitutes these into the template's `{{.Week}}`, `{{.WeekStart}}` and `{{.WeekEnd}}` placeholders. It saves the result as `<docs>/<YYYY-MM>/weekly-report-<WW>.md` unless something is already there.

This project models the three functions of `goweek.go` that do that work:

- `getDateInfo` (the week resolver) is the function `Week.GetDateInfo`. It is built on a proleptic Gregorian calendar with day numbers (module `Calendar`) and Go's zero-padded integer rendering (module `Decimal`). Go's ISO week rule is proved equal to the ISO 8601 definition, in which week 1 holds January 4.
- `fillTemplate` is `Template.FillTemplate`. It is three passes of Go's `strings.ReplaceAll`, including Go's empty-pattern behaviour. It is proved equal to a single simultaneous substitution (`Template.Substitute`), which is its reference definition.
- `writeToFile` does the following: an `os.Stat` of the month directory, an `os.Mkdir` when it is missing, an `os.Stat` of the report path, then an `os.WriteFile` when nothing is there. It is modelled twice:
  - as a function on a file-system value, `Report.WriteReport`;
  - as the imperative class `Report.Disk`, whose fields are the files and directories. Its methods `Mkdir` and `WriteFile` change them in place; `Stat` reads them. `WriteToFile` runs the source's steps on them and is proved to end in the state `WriteReport` describes.

The clock reading, taken in the Asia/Hong_Kong zone, becomes the parameter `today`, a valid civil date. Hong Kong has no daylight-saving time, so Go's `AddDate(0, 0, n)` is day arithmetic on day numbers. The configured documents directory becomes the parameter `docsDir`. It is empty when config.json has no `docs_dir` (goweek.go:184, 196); `filepath.Join` then drops it, and the month directory is relative to the working directory. The model does the same.

The file system is modelled with POSIX conventions: '/' separates path components, and the errors are the POSIX errno values ENOENT, ENOTDIR, EEXIST, EISDIR and EACCES. goweek.go:75 reads the USERPROFILE variable, which suggests Windows; there Go joins with a backslash and reports Windows error codes; that platform is not modelled.

The program means to leave an existing report alone: when `os.Stat` of the report path does not say "does not exist", it prints `file "…" already exists` and returns (goweek.go:225-233). That branch is broader than its message: any `os.Stat` error other than "does not exist" takes it. `Report.MonthDirIsAFile` shows the consequence. When the month path is a regular file, the lookup of the report fails with ENOTDIR. The call then returns the report path with no error, and nothing is written. The model follows the code.

A run leaves a second run of the same week alone only while both runs fall in one month. The month label is the reference day's own year and month (goweek.go:165), and it names the month directory (goweek.go:215). So two runs in one ISO week whose reference days fall in different months write two reports. `Report.SecondRunInWeekWritesNothing` proves that a second run in the same week and month writes nothing and returns the first run's result. `Report.Week18Of2024TwoPaths` shows the split: Tuesday 2024-04-30 and Thursday 2024-05-02 are both in week 18, yet their reports go to `2024-04/weekly-report-18.md` and `2024-05/weekly-report-18.md`.

The file-system value can hold states no real file system has, such as an entry below a missing directory. `Report.Tree` singles out the real ones, in which every ancestor of an entry is a directory. os.Mkdir and os.WriteFile of a single path component keep a file system a tree (`Report.TreeAfterMkdir`, `Report.TreeAfterWriteFile`), and so does writeToFile (`Report.WriteReportTree`). On a tree, os.Mkdir is not recursive: a missing documents directory makes writeToFile fail with ENOENT (`Report.MissingDocsDirFails`).

## Model

| member | source | states |
|---|---|---|
| Decimal.Digits | goweek.go:152 | the decimal digits of n, with no leading zero, read back as n |
| Decimal.PadDigits | goweek.go:152 | the digits of n left-padded with zeros, read back as n; the length is w, or the number of digits of n when that is larger |
| Decimal.FormatInt | goweek.go:152-165 | the numeric layout fields of time.Format, and `%02d` on the non-negative week number: the text reads back as x; its length is the padded width of the magnitude, plus one for the '-' of a negative x; exactly w characters for 1 <= w and 0 <= x < 10^w |
| Decimal.DigitsDetermined | goweek.go:152 | two digit strings of the same length that read back as the same number are equal |
| Decimal.PadDigitsDetermined | goweek.go:152 | PadDigits's contract leaves no other text: any digit string of the padded width reading back as n is PadDigits(n, w) |
| Calendar.IsLeapYear | goweek.go:148 | no contract of its own: the Gregorian leap-year rule Go's calendar uses, every fourth year except centuries not divisible by 400; Calendar.DaysBeforeYearClosed counts these leap days |
| Calendar.DaysInMonth | goweek.go:148 | 31 days exactly for January, March, May, July, August, October and December; 30 exactly for April, June, September and November; February has 29 days exactly in a leap year |
| Calendar.DayOfYear | goweek.go:151 | Go's YearDay: between 1 and the length of the year, and one more than the days since January 1 |
| Calendar.DaysBeforeYearClosed | goweek.go:148 | the day count before a year equals 365 a year plus the Gregorian leap days (every 4th year, not centuries, but every 400th) |
| Calendar.FromDayNumber | goweek.go:148 | the date the time's day count denotes: a valid date whose day number is n, for every integer n |
| Calendar.DayNumberInjective | goweek.go:148 | a valid date is determined by its day number, so FromDayNumber inverts DayNumber |
| Calendar.AddDays | goweek.go:148 | AddDate(0, 0, n) yields a valid date exactly n days later |
| Calendar.AddDaysAdd | goweek.go:148 | moving by m days and then by n days is moving by m + n days |
| Calendar.Weekday | goweek.go:154 | Go's Weekday is in 0..6 (Sunday 0) |
| Calendar.MondayIsMultipleOfSeven | goweek.go:154-157 | a date is a Monday exactly when its day number is a multiple of seven |
| Calendar.ThursdayShift | goweek.go:151 | Go's ISOWeek shift (Thursday minus weekday, with a Sunday moving back 3) reaches the Thursday of the Monday-to-Sunday week |
| Calendar.ThursdayOf | goweek.go:151 | the date ISOWeek counts is a Thursday, three days after its week's Monday |
| Calendar.ISOWeek | goweek.go:151 | the week number is between 1 and 53 |
| Calendar.Week1MondayOfJanuary4 | goweek.go:151 | the reference week 1 starts on a Monday and holds January 4 |
| Calendar.ISOWeekIsStandard | goweek.go:151 | the returned week-numbering year holds the day between its week 1 Monday and the next year's, and the week number counts whole weeks since that Monday |
| Calendar.ISOWeekYearUnique | goweek.go:151 | no other year's ISO weeks contain the day |
| Week.ReferenceDay | goweek.go:146-149 | the reference day is today, or exactly seven days earlier for last week |
| Week.WeekdayNumber | goweek.go:154-157 | weekDay runs from Monday = 1 to Sunday = 7 |
| Week.WeekStart | goweek.go:159 | the week start is a Monday at most six days before the reference day, six days before it on a Sunday |
| Week.WeekEnd | goweek.go:162 | the week end is a Friday, four days after the week start |
| Week.GetDateInfo | goweek.go:138-168 | the week field is two digits whose value is the ISO week number of the reference day |
| Week.SlashedDate | goweek.go:160-163 | no contract of its own: Week.SlashedDateFields states what its text holds |
| Week.YearMonth | goweek.go:165 | no contract of its own: Week.YearMonthFields states what its text holds |
| Week.SlashedDateFields | goweek.go:160 | `YYYY/MM/DD` has '/' at positions 4 and 7 and digit fields reading back as the year, month and day |
| Week.YearMonthFields | goweek.go:165 | `YYYY-MM` has '-' at position 4 and digit fields reading back as the year and month |
| Week.FourDigitYears | goweek.go:159-165 | for years 2 to 9998 the reference day, week start and week end all have four-digit years |
| Week.DateInfoFields | goweek.go:150-165 | all four fields at once: the ISO week, the Monday and Friday of the reference day's week, and the reference day's own year and month |
| Week.SameWeekSameFields | goweek.go:150-163 | two runs in one Monday-to-Sunday week, both this week or both last week, get the same week number, week start and week end |
| Week.SameWeekSameBoundaries | goweek.go:159-163 | days of one Monday-to-Sunday week have the same week start and week end |
| Week.SameWeekSameMonthSameInfo | goweek.go:138-168 | two runs in one week whose reference days share year and month get the same DateInfo |
| Week.Week18Of2024SpansTwoMonths | goweek.go:151-165 | 2024-04-30 and 2024-05-02 both get week "18", but month labels "2024-04" and "2024-05" |
| Week.SameWeekSameISOWeek | goweek.go:151 | days of one Monday-to-Sunday week share their Thursday and their ISO week |
| Week.BoundariesInSameISOWeek | goweek.go:151-163 | the week start and the week end lie in the reference day's ISO week |
| Week.LastWeekIsWeekBefore | goweek.go:147-149 | the last-week result equals the this-week result for the date seven days earlier |
| Week.LastWeekBoundaries | goweek.go:147-163 | last week's Monday and Friday are this week's moved back exactly seven days |
| Week.MidMay2024 | goweek.go:138-168 | on 2024-05-15 the result is week "20", "2024/05/13" to "2024/05/17", month "2024-05" |
| Week.NewYearSunday2021 | goweek.go:151-165 | on Sunday 2021-01-03 the week is "53" of 2020, from "2020/12/28" to "2021/01/01", while the month is "2021-01" |
| Template.ReplaceAll | goweek.go:177-179 | no contract of its own: Go's leftmost, non-overlapping strings.ReplaceAll; Template.ReplaceAllAbsent, Template.ReplaceAllRemoves, Template.ReplaceAllNoNew and Template.FillIsSimultaneous state what it does |
| Template.Fill | goweek.go:177-179 | no contract of its own: the three passes in the source's order; Template.FillIsSimultaneous equates them with Template.Substitute |
| Template.FillTemplate | goweek.go:170-181 | no contract of its own: Template.FillTemplateMeaning states what fillTemplate returns |
| Template.ReplaceAllAbsent | goweek.go:177 | a pass over text without the pattern returns the text unchanged |
| Template.ReplaceAllRemoves | goweek.go:177 | after a pass whose replacement shares no character with the pattern, the pattern no longer occurs |
| Template.ReplaceAllNoNew | goweek.go:178 | a pass creates no occurrence of a token that its replacement shares no character with |
| Template.DateInfoInert | goweek.go:152-165 | the values getDateInfo produces are non-empty and made of digits, '/' and '-' only |
| Template.FillIsSimultaneous | goweek.go:177-179 | the three sequential passes equal one left-to-right simultaneous substitution of the three placeholders |
| Template.FillRemovesTokens | goweek.go:177-179 | no placeholder survives the three passes |
| Template.FillWithoutTokens | goweek.go:177-179 | a template with no placeholders comes back unchanged |
| Template.FillTemplateMeaning | goweek.go:170-181 | fillTemplate's output is the simultaneous substitution of the day's values; it holds no placeholder; a placeholder-free template is returned as is |
| Report.Join | goweek.go:215-224 | an empty directory is dropped and the name returned; otherwise the path is the directory, a '/', then the name |
| Report.ReportName | goweek.go:224 | no contract of its own: Report.ReportNameNoSlash and Report.ReportPathsDistinct state its properties |
| Report.MonthDir | goweek.go:215 | no contract of its own: the month directory; Report.PathsDiffer and Report.ReportPathsDistinct relate it to the report path |
| Report.ReportPath | goweek.go:224 | no contract of its own: Report.ReportPathsDistinct states that it determines the month and the week; Report.MidMay2024Path gives an example |
| Report.StatError | goweek.go:216-225 | os.Stat succeeds exactly on existing, non-empty paths below no regular file; ENOENT for the empty path or when nothing is there; ENOTDIR when an ancestor is a file |
| Report.NotExist | goweek.go:217-226 | no contract of its own: os.IsNotExist on the os.Stat error, true for ENOENT only, so an ENOTDIR lookup takes the "already exists" branch (Report.MonthDirIsAFile) |
| Report.ParentError | goweek.go:218-227 | the parent lookup succeeds exactly for the working directory "" or a directory os.Stat finds |
| Report.MkdirResult | goweek.go:218 | Mkdir succeeds exactly when the parent is a writable directory and a non-empty path is free; only then is one directory added, and files never change |
| Report.WriteFileResult | goweek.go:227 | WriteFile succeeds exactly when the parent is a directory, the path is non-empty and no directory, and a new file's directory is writable; only then the path maps to the content |
| Report.WriteReport | goweek.go:204-238 | no contract of its own: Report.WriteReportOutcome states what writeToFile does, and the lemmas below its cases |
| Report.WriteReportOutcome | goweek.go:215-237 | a successful result is the report path; files change only by the new report and only when nothing was at its path; directories grow by at most the month directory, and only when it was missing |
| Report.PathsDiffer | goweek.go:215-224 | the month directory and the report path are different paths |
| Report.ExistingReportKept | goweek.go:225-233 | an existing report in an existing (non-empty) month directory is left untouched and its path returned |
| Report.NewReportWritten | goweek.go:224-237 | a missing report in a writable month directory is created with the content; it is exactly one new file and nothing else changes |
| Report.NewMonthReportWritten | goweek.go:215-237 | the first report of a month: under a writable documents directory, a missing month directory is created and the report written in it; exactly one new directory and one new file, the report path returned |
| Report.JoinNotUnderFile | goweek.go:215-224 | a separator-free name joined to a directory os.Stat finds is below no regular file |
| Report.ReportNameNoSlash | goweek.go:224 | the report name of a separator-free week adds no directory level below the month directory |
| Report.ReportPathsDistinct | goweek.go:215-224 | distinct months or weeks get distinct report paths: the path gives back the month label and the week |
| Report.WriteReportIdempotent | goweek.go:204-238 | a second call with any content changes nothing and returns the same result |
| Report.WriteReportConsistent | goweek.go:215-237 | no path becomes both a file and a directory |
| Report.MonthDirIsAFile | goweek.go:216-233 | when the (non-empty) month path is a regular file, the call writes nothing and still returns the report path |
| Report.Tree | goweek.go:216-227 | no contract of its own: every ancestor of an entry is a directory; Report.TreeAfterMkdir, Report.TreeAfterWriteFile and Report.WriteReportTree show the calls keep it |
| Report.JoinAncestors | goweek.go:215-224 | a separator-free name joined to a directory os.Stat finds has only directories above it |
| Report.TreeAfterMkdir | goweek.go:218 | os.Mkdir of a separator-free name keeps the file system a tree |
| Report.TreeAfterWriteFile | goweek.go:227 | os.WriteFile of a separator-free name keeps the file system a tree |
| Report.WriteReportTree | goweek.go:215-237 | writeToFile keeps the file system a tree when the week and month labels have no '/' |
| Report.MissingDocsDirFails | goweek.go:215-220 | on a tree, a missing documents directory makes the non-recursive os.Mkdir fail: the result is ENOENT and nothing changes |
| Report.FormatIntNoSlash | goweek.go:152-165 | the text Go writes for an integer has no '/' |
| Report.DateInfoLabels | goweek.go:150-165 | getDateInfo's week and month labels are single non-empty path components, so the lemmas requiring that apply to the DateInfo writeToFile uses |
| Report.SamePathSameLabels | goweek.go:215-224 | equal report paths mean equal month labels and week numbers |
| Report.SecondRunInWeekWritesNothing | goweek.go:204-238 | a second run in the same week whose reference day has the same year and month writes nothing and returns the first run's result |
| Report.Week18Of2024TwoPaths | goweek.go:165-224 | Tuesday 2024-04-30 and Thursday 2024-05-02 share week "18" but get different report paths under any documents directory |
| Report.MidMay2024Path | goweek.go:215-224 | the 2024-05-15 report goes to "docs/2024-05/weekly-report-20.md" |
| Report.Disk.Stat | goweek.go:216 | the error equals StatError of the current state |
| Report.Disk.Mkdir | goweek.go:218 | the new state and the error are those of MkdirResult on the old state |
| Report.Disk.WriteFile | goweek.go:227 | the new state and the error are those of WriteFileResult on the old state |
| Report.Disk.SaveReport | goweek.go:215-237 | the steps after getDateInfo end in WriteReport's state, returning its path, or "" and its error; a consistent state stays consistent, and a tree stays a tree for separator-free labels |
| Report.Disk.WriteToFile | goweek.go:204-238 | writeToFile with the day's DateInfo ends in WriteReport's state and returns its path, or "" and its error; consistency and the tree shape are kept |

## Left out

- main, mainAction and the command-line flags (goweek.go:16-73): argument parsing and the glue between the steps. This includes mainAction swallowing a template read error: it returns nil and ends the run without a report (goweek.go:57-60).
- readTemplate and readConfig (goweek.go:77-84, 188-202): file reading and JSON decoding. Their results are the parameters `tpl` and `docsDir`, and their errors are not modelled.
- The profile directory from the USERPROFILE environment variable (goweek.go:75): environment input.
- gitCommit (goweek.go:86-129) and openFileWithTypora (goweek.go:240-253): they start external processes.
- time.LoadLocation and its error, and time.Now (goweek.go:139-146): the clock and the time-zone database become the valid date `today`. Both getDateInfo calls of one run are taken to see the same day.
- Week.GetDateInfo: assumes a zone without daylight-saving transitions, so AddDate is plain day arithmetic. This holds for Asia/Hong_Kong today.
- Calendar.FromDayNumber: turns a day count into a date by searching for the year and month that hold it, not by Go's 400/100/4-year cycle arithmetic in absDate. The results are the same dates; the steps are not.
- Go's time range limits: years are unbounded integers. Week.DateInfoFields needs years 2 to 9998, so that the four-digit layout fits; outside that range Decimal.FormatInt still gives the text's value and length.
- fmt's `%02d` on negative numbers ("-1", where time.Format's rule gives "-01"): the only `%02d` argument, the ISO week number, is at least 1.
- Report.Join: filepath.Join's path cleaning (removing "." and "..", repeated or trailing separators) and its dropping of an empty name are not modelled; paths are joined with "/" as given. The names joined here, the month label and the report name, are never empty.
- Report.MkdirResult and Report.WriteFileResult take the dir argument as the parent of the new path. That is the real parent when the name has no '/', which holds for the month labels and report names getDateInfo produces.
- File permission bits 0755 and 0644, and the contents' byte encoding: an abstract set of read-only directories stands for permission errors. File contents are strings.
- Other os.Stat, os.Mkdir and os.WriteFile errors (I/O errors, full disks, symbolic links): only ENOENT, ENOTDIR, EEXIST, EISDIR and EACCES are modelled.
- The status lines printed by writeToFile (goweek.go:232, 236): output only.
