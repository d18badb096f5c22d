/**
  Saving the report, writeToFile (goweek.go:204-238): make sure the month directory
  exists under the configured documents directory, then write the report file unless
  something is already there.

  The file system is a value, Fs: the regular files and their contents, the
  directories, and the directories in which nothing may be created (standing for the
  permission errors os.Mkdir and os.WriteFile can report). Paths follow POSIX: components
  are joined with "/", and the errors are the POSIX errno values. A relative path is
  relative to the working directory, which exists and, as a parent, is named "".
  The Go calls os.Stat, os.Mkdir and os.WriteFile are the functions StatError,
  MkdirResult and WriteFileResult on that value; WriteReport is all of writeToFile as a
  function, and the class Disk runs the same steps on mutable state.
 */
module Report {
  import opened Calendar
  import opened Decimal
  import opened Week

  datatype Option<T> = None | Some(value: T)

  /** The system errors the three calls can report here. */
  datatype Errno = ENOENT | ENOTDIR | EEXIST | EISDIR | EACCES

  datatype Result<T> = Ok(value: T) | Err(error: Errno)

  datatype Fs = Fs(files: map<string, string>, dirs: set<string>, readOnly: set<string>)

  /** No path is both a regular file and a directory. */
  predicate Consistent(fs: Fs) {
    fs.files.Keys !! fs.dirs
  }

  /** Every proper prefix of p that ends just before a '/' is a directory. */
  predicate AncestorsAreDirs(fs: Fs, p: string) {
    forall k :: 0 < k < |p| && p[k] == '/' ==> p[..k] in fs.dirs
  }

  /**
    The entries form a tree, as on a real file system: nothing lies below a path that
    is not a directory.
   */
  predicate Tree(fs: Fs) {
    && (forall p :: p in fs.files ==> AncestorsAreDirs(fs, p))
    && (forall p :: p in fs.dirs ==> AncestorsAreDirs(fs, p))
  }

  /**
    filepath.Join of two components, without Go's path cleaning: an empty directory is
    dropped, so the name stays relative to the working directory.
   */
  function Join(dir: string, name: string): (path: string)
    ensures dir == "" ==> path == name
    ensures dir != "" ==> && |path| == |dir| + 1 + |name| && path[..|dir|] == dir
                          && path[|dir|] == '/' && path[|dir| + 1..] == name
  {
    if dir == "" then name else dir + "/" + name
  }

  /** A path component: no separator in it. */
  predicate NoSlash(s: string) {
    forall i :: 0 <= i < |s| ==> s[i] != '/'
  }

  /** fmt.Sprintf("weekly-report-%s.md", week) */
  function ReportName(week: string): string {
    "weekly-report-" + week + ".md"
  }

  function MonthDir(docsDir: string, info: DateInfo): string {
    Join(docsDir, info.month)
  }

  function ReportPath(docsDir: string, info: DateInfo): string {
    Join(MonthDir(docsDir, info), ReportName(info.week))
  }

  // ---------------------------------------------------------------------------
  // The three system calls

  /** A proper prefix of path that ends just before a '/' is a regular file. */
  predicate UnderFile(fs: Fs, path: string) {
    exists k :: 0 < k < |path| && path[k] == '/' && path[..k] in fs.files
  }

  /**
    The error os.Stat reports for path, if any: ENOTDIR when the lookup runs into a
    regular file, ENOENT when nothing is there; the empty path names nothing.
   */
  function StatError(fs: Fs, path: string): (err: Option<Errno>)
    ensures err == None <==> path != "" && !UnderFile(fs, path) && (path in fs.files || path in fs.dirs)
    ensures err == Some(ENOENT) <==>
              path == "" || (!UnderFile(fs, path) && path !in fs.files && path !in fs.dirs)
    ensures err == Some(ENOTDIR) <==> UnderFile(fs, path)
  {
    if path == "" then Some(ENOENT)
    else if UnderFile(fs, path) then Some(ENOTDIR)
    else if path in fs.files || path in fs.dirs then None
    else Some(ENOENT)
  }

  /** os.IsNotExist(err) for the error os.Stat(path) returns. */
  predicate NotExist(fs: Fs, path: string) {
    StatError(fs, path) == Some(ENOENT)
  }

  /**
    The parent, looked up, is a directory; when it is not, the error the lookup gives.
    The parent "" is the working directory.
   */
  function ParentError(fs: Fs, dir: string): (err: Option<Errno>)
    ensures err == None <==>
              dir == "" || (StatError(fs, dir) == None && dir in fs.dirs && dir !in fs.files)
  {
    if dir == "" then None
    else if StatError(fs, dir).Some? then StatError(fs, dir)
    else if dir in fs.files then Some(ENOTDIR)
    else None
  }

  /** os.Mkdir(filepath.Join(dir, name)): the new state and the error. */
  function MkdirResult(fs: Fs, dir: string, name: string): (r: (Fs, Option<Errno>))
    ensures var path := Join(dir, name);
            && (r.1 == None <==>
                  ParentError(fs, dir) == None && path != "" && path !in fs.files && path !in fs.dirs
                  && dir !in fs.readOnly)
            && r.0.files == fs.files && r.0.readOnly == fs.readOnly
            && r.0.dirs == (if r.1 == None then fs.dirs + {path} else fs.dirs)
  {
    var path := Join(dir, name);
    if ParentError(fs, dir).Some? then (fs, ParentError(fs, dir))
    else if path == "" then (fs, Some(ENOENT))
    else if path in fs.files || path in fs.dirs then (fs, Some(EEXIST))
    else if dir in fs.readOnly then (fs, Some(EACCES))
    else (fs.(dirs := fs.dirs + {path}), None)
  }

  /**
    os.WriteFile(filepath.Join(dir, name), content, 0644): create or truncate the file.
    A new file needs a writable directory; a directory cannot be written as a file.
   */
  function WriteFileResult(fs: Fs, dir: string, name: string, content: string): (r: (Fs, Option<Errno>))
    ensures var path := Join(dir, name);
            && (r.1 == None <==>
                  ParentError(fs, dir) == None && path != "" && path !in fs.dirs
                  && (path !in fs.files ==> dir !in fs.readOnly))
            && r.0.dirs == fs.dirs && r.0.readOnly == fs.readOnly
            && r.0.files == (if r.1 == None then fs.files[path := content] else fs.files)
  {
    var path := Join(dir, name);
    if ParentError(fs, dir).Some? then (fs, ParentError(fs, dir))
    else if path == "" then (fs, Some(ENOENT))
    else if path in fs.dirs then (fs, Some(EISDIR))
    else if path !in fs.files && dir in fs.readOnly then (fs, Some(EACCES))
    else (fs.(files := fs.files[path := content]), None)
  }

  // ---------------------------------------------------------------------------
  // writeToFile

  /**
    writeToFile(content, lastWeek) once the configuration has given docsDir and
    getDateInfo has given info: the new file system and the path or the error.
   */
  function WriteReport(fs: Fs, docsDir: string, info: DateInfo, content: string): (Fs, Result<string>) {
    var monthDir := MonthDir(docsDir, info);
    var (fs1, mkErr) := if NotExist(fs, monthDir) then MkdirResult(fs, docsDir, info.month) else (fs, None);
    if mkErr.Some? then (fs1, Err(mkErr.value))
    else
      var file := Join(monthDir, ReportName(info.week));
      if NotExist(fs1, file) then
        var (fs2, wErr) := WriteFileResult(fs1, monthDir, ReportName(info.week), content);
        if wErr.Some? then (fs2, Err(wErr.value)) else (fs2, Ok(file))
      else (fs1, Ok(file))
  }

  /** The report path lies inside the month directory, so it is another path. */
  lemma PathsDiffer(docsDir: string, info: DateInfo)
    ensures MonthDir(docsDir, info) != ReportPath(docsDir, info)
  {
    assert |ReportPath(docsDir, info)| > |MonthDir(docsDir, info)|;
  }

  /** Creating the month directory does not change what os.Stat says about the report. */
  lemma StatAfterMkdir(fs: Fs, docsDir: string, info: DateInfo)
    ensures StatError(MkdirResult(fs, docsDir, info.month).0, ReportPath(docsDir, info))
         == StatError(fs, ReportPath(docsDir, info))
  {
    PathsDiffer(docsDir, info);
  }

  /**
    What writeToFile does. The result is the report path whenever it is not an error.
    The files change only by the new report, written with the given content, and only
    when os.Stat found nothing at its path; in particular an existing report is kept as
    it is. The directories change only by the month directory, created only when
    os.Stat found nothing there. A failed call leaves the files as they were.
   */
  lemma WriteReportOutcome(fs: Fs, docsDir: string, info: DateInfo, content: string)
    ensures var (fs', r) := WriteReport(fs, docsDir, info, content);
            var path, monthDir := ReportPath(docsDir, info), MonthDir(docsDir, info);
            && (r.Ok? ==> r.value == path)
            && fs'.readOnly == fs.readOnly
            && fs'.files == (if r.Ok? && NotExist(fs, path) then fs.files[path := content] else fs.files)
            && fs.dirs <= fs'.dirs <= fs.dirs + {monthDir}
            && (fs'.dirs != fs.dirs ==> NotExist(fs, monthDir))
            && (r.Ok? && NotExist(fs, monthDir) ==> monthDir in fs'.dirs)
  {
    StatAfterMkdir(fs, docsDir, info);
  }

  /**
    A report that is already in place is left alone and its path returned. (The empty
    path names nothing, so the month directory is not "".)
   */
  lemma ExistingReportKept(fs: Fs, docsDir: string, info: DateInfo, content: string)
    requires ReportPath(docsDir, info) in fs.files && MonthDir(docsDir, info) in fs.dirs
    requires MonthDir(docsDir, info) != ""
    ensures WriteReport(fs, docsDir, info, content) == (fs, Ok(ReportPath(docsDir, info)))
  {
    var monthDir := MonthDir(docsDir, info);
    assert !NotExist(fs, monthDir);
    assert !NotExist(fs, ReportPath(docsDir, info));
  }

  /**
    A name without a separator, joined to a directory that os.Stat finds, is not
    below a regular file.
   */
  lemma JoinNotUnderFile(fs: Fs, dir: string, name: string)
    requires ParentError(fs, dir) == None && NoSlash(name)
    ensures !UnderFile(fs, Join(dir, name))
  {
    var path := Join(dir, name);
    if dir != "" {
      forall k | |dir| < k < |path| ensures path[k] != '/' {
        assert path[k] == name[k - |dir| - 1];
      }
      forall k | 0 < k <= |dir| && path[k] == '/' ensures path[..k] !in fs.files {
        if k < |dir| {
          assert path[..k] == dir[..k];
          assert dir[k] == '/';
        }
      }
    }
  }

  /**
    A missing report in an existing, writable month directory is created: exactly one
    new file, holding the content, and nothing else changes.
   */
  lemma NewReportWritten(fs: Fs, docsDir: string, info: DateInfo, content: string)
    requires NoSlash(info.week)
    requires var monthDir := MonthDir(docsDir, info);
             && StatError(fs, monthDir) == None && monthDir in fs.dirs && monthDir !in fs.files
             && monthDir !in fs.readOnly
             && ReportPath(docsDir, info) !in fs.files && ReportPath(docsDir, info) !in fs.dirs
    ensures var (fs', r) := WriteReport(fs, docsDir, info, content);
            && r == Ok(ReportPath(docsDir, info))
            && fs'.files.Keys == fs.files.Keys + {ReportPath(docsDir, info)}
            && fs'.files[ReportPath(docsDir, info)] == content
            && (forall p :: p in fs.files ==> fs'.files[p] == fs.files[p])
            && fs'.dirs == fs.dirs
  {
    var monthDir, path := MonthDir(docsDir, info), ReportPath(docsDir, info);
    assert !NotExist(fs, monthDir);
    ReportNameNoSlash(info.week);
    JoinNotUnderFile(fs, monthDir, ReportName(info.week));
    assert NotExist(fs, path);
  }

  /**
    The first report of a month: the month directory is missing under a writable
    documents directory, so writeToFile creates it and then the report in it.
   */
  lemma NewMonthReportWritten(fs: Fs, docsDir: string, info: DateInfo, content: string)
    requires ParentError(fs, docsDir) == None && docsDir !in fs.readOnly
    requires info.month != "" && NoSlash(info.month) && NoSlash(info.week)
    requires var monthDir, path := MonthDir(docsDir, info), ReportPath(docsDir, info);
             && monthDir !in fs.files && monthDir !in fs.dirs && monthDir !in fs.readOnly
             && path !in fs.files && path !in fs.dirs
    ensures var (fs', r) := WriteReport(fs, docsDir, info, content);
            && r == Ok(ReportPath(docsDir, info))
            && fs'.dirs == fs.dirs + {MonthDir(docsDir, info)}
            && fs'.files == fs.files[ReportPath(docsDir, info) := content]
            && fs'.readOnly == fs.readOnly
  {
    var monthDir, path, name := MonthDir(docsDir, info), ReportPath(docsDir, info), ReportName(info.week);
    JoinNotUnderFile(fs, docsDir, info.month);
    assert NotExist(fs, monthDir);
    var fs1 := MkdirResult(fs, docsDir, info.month).0;
    assert fs1 == fs.(dirs := fs.dirs + {monthDir});
    assert ParentError(fs1, monthDir) == None;
    ReportNameNoSlash(info.week);
    JoinNotUnderFile(fs1, monthDir, name);
    PathsDiffer(docsDir, info);
    assert NotExist(fs1, path);
  }

  /** The report name adds no directory level below the month directory. */
  lemma ReportNameNoSlash(week: string)
    requires NoSlash(week)
    ensures NoSlash(ReportName(week))
  {
    var name := ReportName(week);
    forall j | 0 <= j < |name| ensures name[j] != '/' {
      if j < 14 {
        assert name[j] == "weekly-report-"[j];
      } else if j < 14 + |week| {
        assert name[j] == week[j - 14];
      } else {
        assert name[j] == ".md"[j - 14 - |week|];
      }
    }
  }

  /**
    Reports of different months or weeks never share a path: the report path gives back
    the month label and the week. Month labels are single non-empty components, as the
    "YYYY-MM" of getDateInfo is.
   */
  lemma ReportPathsDistinct(docsDir: string, a: DateInfo, b: DateInfo)
    requires a.month != "" && NoSlash(a.month) && b.month != "" && NoSlash(b.month)
    requires ReportPath(docsDir, a) == ReportPath(docsDir, b)
    ensures a.month == b.month && a.week == b.week
  {
    ReportPathSplit(docsDir, a);
    ReportPathSplit(docsDir, b);
    JoinCancel(docsDir, a.month + "/" + ReportName(a.week), b.month + "/" + ReportName(b.week));
    SplitAtSlash(a.month, ReportName(a.week), b.month, ReportName(b.week));
    ReportNameInjective(a.week, b.week);
  }

  lemma ReportPathSplit(docsDir: string, info: DateInfo)
    requires info.month != ""
    ensures ReportPath(docsDir, info) == Join(docsDir, info.month + "/" + ReportName(info.week))
  {
    var m, name := MonthDir(docsDir, info), ReportName(info.week);
    assert m != "";
    assert ReportPath(docsDir, info) == m + "/" + name;
    if docsDir == "" {
      assert m == info.month;
    } else {
      assert m == docsDir + "/" + info.month;
      assert m + "/" + name == docsDir + "/" + (info.month + "/" + name);
    }
  }

  lemma JoinCancel(dir: string, x: string, y: string)
    requires Join(dir, x) == Join(dir, y)
    ensures x == y
  {
  }

  /** Splitting at the first '/' gives back both parts. */
  lemma SplitAtSlash(m1: string, n1: string, m2: string, n2: string)
    requires NoSlash(m1) && NoSlash(m2) && m1 + "/" + n1 == m2 + "/" + n2
    ensures m1 == m2 && n1 == n2
  {
    var s := m1 + "/" + n1;
    FirstSlash(s, m1, n1);
    FirstSlash(s, m2, n2);
    assert |m1| == |m2|;
    assert m1 == s[..|m1|] && m2 == s[..|m2|];
    assert n1 == s[|m1| + 1..] && n2 == s[|m2| + 1..];
  }

  lemma ReportNameInjective(w1: string, w2: string)
    requires ReportName(w1) == ReportName(w2)
    ensures w1 == w2
  {
    var n := ReportName(w1);
    assert w1 == n[14..|n| - 3];
    assert w2 == ReportName(w2)[14..|n| - 3];
  }

  /** In m + "/" + rest with no '/' in m, the first '/' is at position |m|. */
  lemma FirstSlash(s: string, m: string, rest: string)
    requires s == m + "/" + rest && NoSlash(m)
    ensures s[|m|] == '/' && forall i :: 0 <= i < |m| ==> s[i] != '/'
  {
    forall i | 0 <= i < |m| ensures s[i] != '/' {
      assert s[i] == m[i];
    }
  }

  /** More directories keep every ancestor a directory. */
  lemma AncestorsGrow(fs: Fs, fs': Fs, p: string)
    requires fs.dirs <= fs'.dirs && AncestorsAreDirs(fs, p)
    ensures AncestorsAreDirs(fs', p)
  {
  }

  /** A separator-free name joined to a directory os.Stat finds has only directories above it. */
  lemma JoinAncestors(fs: Fs, dir: string, name: string)
    requires ParentError(fs, dir) == None && NoSlash(name)
    requires dir != "" ==> AncestorsAreDirs(fs, dir)
    ensures AncestorsAreDirs(fs, Join(dir, name))
  {
    var path := Join(dir, name);
    if dir != "" {
      forall k | |dir| < k < |path| ensures path[k] != '/' {
        assert path[k] == name[k - |dir| - 1];
      }
      forall k | 0 < k <= |dir| && path[k] == '/' ensures path[..k] in fs.dirs {
        if k < |dir| {
          assert path[..k] == dir[..k];
          assert dir[k] == '/';
        }
      }
    }
  }

  /** os.Mkdir of a separator-free name keeps the file system a tree. */
  lemma TreeAfterMkdir(fs: Fs, dir: string, name: string)
    requires Tree(fs) && NoSlash(name)
    ensures Tree(MkdirResult(fs, dir, name).0)
  {
    var fs' := MkdirResult(fs, dir, name).0;
    if MkdirResult(fs, dir, name).1 == None {
      JoinAncestors(fs, dir, name);
      AncestorsGrow(fs, fs', Join(dir, name));
      forall p | p in fs'.files ensures AncestorsAreDirs(fs', p) {
        AncestorsGrow(fs, fs', p);
      }
      forall p | p in fs'.dirs ensures AncestorsAreDirs(fs', p) {
        if p != Join(dir, name) {
          AncestorsGrow(fs, fs', p);
        }
      }
    }
  }

  /** os.WriteFile of a separator-free name keeps the file system a tree. */
  lemma TreeAfterWriteFile(fs: Fs, dir: string, name: string, content: string)
    requires Tree(fs) && NoSlash(name)
    ensures Tree(WriteFileResult(fs, dir, name, content).0)
  {
    var fs' := WriteFileResult(fs, dir, name, content).0;
    if WriteFileResult(fs, dir, name, content).1 == None {
      JoinAncestors(fs, dir, name);
      AncestorsGrow(fs, fs', Join(dir, name));
      forall p | p in fs'.files ensures AncestorsAreDirs(fs', p) {
        if p != Join(dir, name) {
          AncestorsGrow(fs, fs', p);
        }
      }
      forall p | p in fs'.dirs ensures AncestorsAreDirs(fs', p) {
        AncestorsGrow(fs, fs', p);
      }
    }
  }

  /** writeToFile keeps the file system a tree when its labels are path components. */
  lemma WriteReportTree(fs: Fs, docsDir: string, info: DateInfo, content: string)
    requires Tree(fs) && NoSlash(info.month) && NoSlash(info.week)
    ensures Tree(WriteReport(fs, docsDir, info, content).0)
  {
    var monthDir := MonthDir(docsDir, info);
    TreeAfterMkdir(fs, docsDir, info.month);
    var fs1 := if NotExist(fs, monthDir) then MkdirResult(fs, docsDir, info.month).0 else fs;
    ReportNameNoSlash(info.week);
    TreeAfterWriteFile(fs1, monthDir, ReportName(info.week), content);
  }

  /**
    os.Mkdir is not recursive: on a tree, when the documents directory is missing,
    writeToFile fails with ENOENT and changes nothing.
   */
  lemma MissingDocsDirFails(fs: Fs, docsDir: string, info: DateInfo, content: string)
    requires Tree(fs) && docsDir != "" && StatError(fs, docsDir) == Some(ENOENT)
    ensures WriteReport(fs, docsDir, info, content) == (fs, Err(ENOENT))
  {
    var monthDir := MonthDir(docsDir, info);
    assert monthDir[..|docsDir|] == docsDir && monthDir[|docsDir|] == '/';
    forall k | 0 < k < |monthDir| && monthDir[k] == '/' ensures monthDir[..k] !in fs.files {
      if k < |docsDir| {
        assert monthDir[..k] == docsDir[..k];
        assert docsDir[k] == '/';
      } else if k > |docsDir| {
        assert monthDir[..k][..|docsDir|] == docsDir && monthDir[..k][|docsDir|] == '/';
      }
    }
    assert monthDir !in fs.files && monthDir !in fs.dirs;
    assert NotExist(fs, monthDir);
  }

  /** A text Go writes for an integer holds no separator. */
  lemma FormatIntNoSlash(x: int, w: nat)
    ensures NoSlash(FormatInt(x, w))
  {
    var s := FormatInt(x, w);
    if x < 0 {
      forall i | 1 <= i < |s| ensures s[i] != '/' {
        assert s[i] == s[1..][i - 1];
      }
    }
  }

  lemma NoSlashConcat(a: string, b: string)
    requires NoSlash(a) && NoSlash(b)
    ensures NoSlash(a + b)
  {
    forall i | |a| <= i < |a + b| ensures (a + b)[i] != '/' {
      assert (a + b)[i] == b[i - |a|];
    }
  }

  /**
    getDateInfo's week and month labels are single non-empty path components, so the
    lemmas above that ask for this apply to the DateInfo writeToFile uses.
   */
  lemma DateInfoLabels(today: Date, lastWeek: bool)
    requires ValidDate(today)
    ensures var info := GetDateInfo(today, lastWeek);
            info.month != "" && NoSlash(info.month) && NoSlash(info.week)
  {
    var now := ReferenceDay(today, lastWeek);
    var y, m := FormatInt(now.year, 4), FormatInt(now.month, 2);
    FormatIntNoSlash(now.year, 4);
    FormatIntNoSlash(now.month, 2);
    NoSlashConcat(y, "-");
    NoSlashConcat(y + "-", m);
    assert GetDateInfo(today, lastWeek).month == y + "-" + m;
  }

  /**
    Two runs in one Monday-to-Sunday week whose reference days share year and month
    get one report path, so the second run writes nothing and returns what the first
    returned.
   */
  lemma SecondRunInWeekWritesNothing(fs: Fs, docsDir: string, a: Date, b: Date, lastWeek: bool,
                                     content: string, content2: string)
    requires ValidDate(a) && ValidDate(b)
    requires DayNumber(a) - DayNumber(a) % 7 == DayNumber(b) - DayNumber(b) % 7
    requires var ra, rb := ReferenceDay(a, lastWeek), ReferenceDay(b, lastWeek);
             ra.year == rb.year && ra.month == rb.month
    ensures var (fs', r) := WriteReport(fs, docsDir, GetDateInfo(a, lastWeek), content);
            WriteReport(fs', docsDir, GetDateInfo(b, lastWeek), content2) == (fs', r)
  {
    SameWeekSameMonthSameInfo(a, b, lastWeek);
    WriteReportIdempotent(fs, docsDir, GetDateInfo(a, lastWeek), content, content2);
  }

  /**
    The month label comes from the reference day (goweek.go:165, 215), so one ISO week
    can have two report paths: Tuesday 2024-04-30 and Thursday 2024-05-02 are both in
    week 18, labelled "2024-04" and "2024-05", and get different files under any
    documents directory.
   */
  lemma Week18Of2024TwoPaths(docsDir: string)
    ensures var a, b := GetDateInfo(Date(2024, 4, 30), false), GetDateInfo(Date(2024, 5, 2), false);
            && a.week == b.week == "18"
            && a.month == "2024-04" && b.month == "2024-05"
            && ReportPath(docsDir, a) != ReportPath(docsDir, b)
  {
    Week18Of2024SpansTwoMonths();
    DateInfoLabels(Date(2024, 4, 30), false);
    DateInfoLabels(Date(2024, 5, 2), false);
    SamePathSameLabels(docsDir, GetDateInfo(Date(2024, 4, 30), false), GetDateInfo(Date(2024, 5, 2), false));
  }

  /** ReportPathsDistinct as an implication, for callers that do not know the paths agree. */
  lemma SamePathSameLabels(docsDir: string, a: DateInfo, b: DateInfo)
    requires a.month != "" && NoSlash(a.month) && b.month != "" && NoSlash(b.month)
    ensures ReportPath(docsDir, a) == ReportPath(docsDir, b) ==> a.month == b.month && a.week == b.week
  {
    if ReportPath(docsDir, a) == ReportPath(docsDir, b) {
      ReportPathsDistinct(docsDir, a, b);
    }
  }

  /** Running writeToFile again, with any content, changes nothing and reports the same. */
  lemma WriteReportIdempotent(fs: Fs, docsDir: string, info: DateInfo, content: string, content2: string)
    ensures var (fs', r) := WriteReport(fs, docsDir, info, content);
            WriteReport(fs', docsDir, info, content2) == (fs', r)
  {
    var monthDir, path := MonthDir(docsDir, info), ReportPath(docsDir, info);
    StatAfterMkdir(fs, docsDir, info);
    PathsDiffer(docsDir, info);
  }

  /** writeToFile keeps files and directories apart. */
  lemma WriteReportConsistent(fs: Fs, docsDir: string, info: DateInfo, content: string)
    requires Consistent(fs)
    ensures Consistent(WriteReport(fs, docsDir, info, content).0)
  {
    StatAfterMkdir(fs, docsDir, info);
  }

  /**
    When the month "directory" is a regular file, os.Stat of the report path fails
    with ENOTDIR, which is not os.IsNotExist: the source then takes its "already exists"
    branch and returns the report path although no report was written.
   */
  lemma MonthDirIsAFile(fs: Fs, docsDir: string, info: DateInfo, content: string)
    requires MonthDir(docsDir, info) in fs.files && MonthDir(docsDir, info) != ""
    ensures WriteReport(fs, docsDir, info, content) == (fs, Ok(ReportPath(docsDir, info)))
  {
    var monthDir, path := MonthDir(docsDir, info), ReportPath(docsDir, info);
    assert path[..|monthDir|] == monthDir;
    assert UnderFile(fs, path);
  }

  /** Where the report of a given day goes. */
  lemma MidMay2024Path()
    ensures ReportPath("docs", GetDateInfo(Date(2024, 5, 15), false)) == "docs/2024-05/weekly-report-20.md"
  {
    MidMay2024();
    MidMay2024PathText();
  }

  lemma MidMay2024PathText()
    ensures ReportPath("docs", DateInfo("20", "2024/05/13", "2024/05/17", "2024-05"))
            == "docs/2024-05/weekly-report-20.md"
  {
    var info := DateInfo("20", "2024/05/13", "2024/05/17", "2024-05");
    var m, name := MonthDir("docs", info), ReportName("20");
    assert m == "docs" + "/" + "2024-05" == "docs/2024-05";
    assert name == "weekly-report-20.md";
    assert ReportPath("docs", info) == m + "/" + name;
  }

  // ---------------------------------------------------------------------------
  // The same steps on a mutable file system

  class Disk {
    var files: map<string, string>
    var dirs: set<string>
    const readOnly: set<string>

    function State(): Fs
      reads this
    {
      Fs(files, dirs, readOnly)
    }

    constructor (fs: Fs)
      ensures State() == fs
    {
      files, dirs, readOnly := fs.files, fs.dirs, fs.readOnly;
    }

    method Stat(path: string) returns (err: Option<Errno>)
      ensures err == StatError(State(), path)
    {
      if path == "" {
        err := Some(ENOENT);
      } else if UnderFile(State(), path) {
        err := Some(ENOTDIR);
      } else if path in files || path in dirs {
        err := None;
      } else {
        err := Some(ENOENT);
      }
    }

    method Mkdir(dir: string, name: string) returns (err: Option<Errno>)
      modifies this
      ensures (State(), err) == MkdirResult(old(State()), dir, name)
    {
      var path := Join(dir, name);
      err := None;
      if dir != "" {
        err := Stat(dir);
        if err == None && dir in files {
          err := Some(ENOTDIR);
        }
      }
      if err == None {
        if path == "" {
          err := Some(ENOENT);
        } else if path in files || path in dirs {
          err := Some(EEXIST);
        } else if dir in readOnly {
          err := Some(EACCES);
        } else {
          dirs := dirs + {path};
        }
      }
    }

    method WriteFile(dir: string, name: string, content: string) returns (err: Option<Errno>)
      modifies this
      ensures (State(), err) == WriteFileResult(old(State()), dir, name, content)
    {
      var path := Join(dir, name);
      err := None;
      if dir != "" {
        err := Stat(dir);
        if err == None && dir in files {
          err := Some(ENOTDIR);
        }
      }
      if err == None {
        if path == "" {
          err := Some(ENOENT);
        } else if path in dirs {
          err := Some(EISDIR);
        } else if path !in files && dir in readOnly {
          err := Some(EACCES);
        } else {
          files := files[path := content];
        }
      }
    }

    /**
      writeToFile(content, lastWeek), with docsDir from the configuration and the
      clock reading passed in as `today`. The error result is "" and the error.
     */
    method WriteToFile(content: string, docsDir: string, today: Date, lastWeek: bool)
      returns (file: string, err: Option<Errno>)
      requires ValidDate(today)
      modifies this
      ensures var (fs, r) := WriteReport(old(State()), docsDir, GetDateInfo(today, lastWeek), content);
              && State() == fs
              && (r.Ok? ==> file == r.value && err == None)
              && (r.Err? ==> file == "" && err == Some(r.error))
      ensures Consistent(old(State())) ==> Consistent(State())
      ensures Tree(old(State())) ==> Tree(State())
    {
      var info := GetDateInfo(today, lastWeek);
      DateInfoLabels(today, lastWeek);
      file, err := SaveReport(content, docsDir, info);
    }

    /** The steps of writeToFile after getDateInfo (goweek.go:215-237). */
    method SaveReport(content: string, docsDir: string, info: DateInfo)
      returns (file: string, err: Option<Errno>)
      modifies this
      ensures var (fs, r) := WriteReport(old(State()), docsDir, info, content);
              && State() == fs
              && (r.Ok? ==> file == r.value && err == None)
              && (r.Err? ==> file == "" && err == Some(r.error))
      ensures Consistent(old(State())) ==> Consistent(State())
      ensures Tree(old(State())) && NoSlash(info.month) && NoSlash(info.week) ==> Tree(State())
    {
      if Consistent(State()) {
        WriteReportConsistent(State(), docsDir, info, content);
      }
      if Tree(State()) && NoSlash(info.month) && NoSlash(info.week) {
        WriteReportTree(State(), docsDir, info, content);
      }
      var monthDir := Join(docsDir, info.month);
      var st := Stat(monthDir);
      if st == Some(ENOENT) {
        err := Mkdir(docsDir, info.month);
        if err != None {
          return "", err;
        }
      }
      var name := ReportName(info.week);
      file := Join(monthDir, name);
      st := Stat(file);
      if st == Some(ENOENT) {
        err := WriteFile(monthDir, name, content);
        if err != None {
          return "", err;
        }
      } else {
        return file, None;
      }
      return file, None;
    }
  }
}
