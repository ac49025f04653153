/**
 The file-system paths the downloader writes to. Paths are joined as POSIX
 `os.path.join` joins them and then have every space and every comma
 removed. Creating directories and writing files is not part of the model.
 */
module Downloads {
  import opened Strings
  import opened Submissions

  /** POSIX `os.path.join(a, b)`: an absolute `b` replaces `a`; otherwise `b`
      is appended, after a `/` unless `a` is empty or already ends in one. */
  function JoinPath(a: string, b: string): (r: string)
    ensures |b| > 0 && b[0] == '/' ==> r == b
    ensures !(|b| > 0 && b[0] == '/') ==> a <= r && |r| - |a| - |b| in {0, 1}
    ensures |r| >= |b| && r[|r| - |b|..] == b
    ensures !(|b| > 0 && b[0] == '/') ==> (|r| == |a| + |b| + 1 <==> a != [] && a[|a| - 1] != '/')
    ensures |r| == |a| + |b| + 1 ==> r[|a|] == '/'
  {
    if |b| > 0 && b[0] == '/' then b
    else if a == [] || a[|a| - 1] == '/' then a + b
    else a + "/" + b
  }

  /** `.replace(" ", "").replace(",", "")`: the path without its spaces and
      commas, every other character kept as often as it occurs. */
  function Sanitise(path: string): (r: string)
    ensures ' ' !in r && ',' !in r
    ensures forall c :: c in r ==> c in path
  {
    RemoveChar(RemoveChar(path, ' '), ',')
  }

  /** Sanitising keeps each character other than space and comma as often
      as it occurs. */
  lemma SanitiseCount(path: string)
    ensures multiset(Sanitise(path)) == multiset(path)[' ' := 0][',' := 0]
  {
    RemoveCharCount(path, ' ');
    RemoveCharCount(RemoveChar(path, ' '), ',');
  }

  /** Sanitising a sanitised path changes nothing. */
  lemma SanitiseIdempotent(path: string)
    ensures Sanitise(Sanitise(path)) == Sanitise(path)
  {
    var r := Sanitise(path);
    RemoveCharAbsent(r, ' ');
    RemoveCharAbsent(r, ',');
  }

  /** Sanitising works piece by piece, keeping the order of what is kept. */
  lemma SanitiseConcat(a: string, b: string)
    ensures Sanitise(a + b) == Sanitise(a) + Sanitise(b)
  {
    RemoveCharConcat(a, b, ' ');
    RemoveCharConcat(RemoveChar(a, ' '), RemoveChar(b, ' '), ',');
  }

  /** The directory a submission of `team` for `assignment` is saved in, as
      `download_all_submissions_from_sheet` builds it. */
  function TeamDirectory(root: string, event: string, sheet: string, assignment: string, team: string): (dir: string)
    ensures ' ' !in dir && ',' !in dir
  {
    Sanitise(JoinPath(JoinPath(JoinPath(JoinPath(root, event), sheet), assignment), team))
  }

  /** Inside a download root that is not empty and does not end in `/`, with
      event, sheet, assignment and team names that are not empty and do not
      start with `/` (and, but for the team, do not end in `/`), the team
      directory is `<root>/<event>/<sheet>/<assignment>/<team>` with every piece
      sanitised. */
  lemma TeamDirectoryLayout(root: string, event: string, sheet: string, assignment: string, team: string)
    requires root != [] && root[|root| - 1] != '/'
    requires event != [] && event[0] != '/' && event[|event| - 1] != '/'
    requires sheet != [] && sheet[0] != '/' && sheet[|sheet| - 1] != '/'
    requires assignment != [] && assignment[0] != '/' && assignment[|assignment| - 1] != '/'
    requires team != [] && team[0] != '/'
    ensures TeamDirectory(root, event, sheet, assignment, team)
         == Sanitise(root) + "/" + Sanitise(event) + "/" + Sanitise(sheet) + "/"
            + Sanitise(assignment) + "/" + Sanitise(team)
  {
    var p1 := root + "/" + event;
    assert JoinPath(root, event) == p1;
    var p2 := p1 + "/" + sheet;
    assert JoinPath(p1, sheet) == p2;
    var p3 := p2 + "/" + assignment;
    assert JoinPath(p2, assignment) == p3;
    var p4 := p3 + "/" + team;
    assert JoinPath(p3, team) == p4;
    SanitiseClean("/");
    SanitiseConcat(p3 + "/", team);
    SanitiseConcat(p3, "/");
    SanitiseConcat(p2 + "/", assignment);
    SanitiseConcat(p2, "/");
    SanitiseConcat(p1 + "/", sheet);
    SanitiseConcat(p1, "/");
    SanitiseConcat(root + "/", event);
    SanitiseConcat(root, "/");
  }

  /** The file name a submission is saved under before sanitising. */
  function FileName(s: Submission): string
  {
    s.user + s.id + ".java"
  }

  /** The path `download_submission` writes a submission to in `dir`. */
  function SubmissionPath(dir: string, s: Submission): (path: string)
    ensures ' ' !in path && ',' !in path
  {
    Sanitise(JoinPath(dir, FileName(s)))
  }

  /** A submission downloaded into a sanitised, non-empty directory whose name
      does not end in `/` lands inside that directory, under its sanitised file
      name, whenever that name is relative. */
  lemma SubmissionPathInDirectory(dir: string, s: Submission)
    requires ' ' !in dir && ',' !in dir
    requires dir != [] && dir[|dir| - 1] != '/'
    requires FileName(s)[0] != '/'
    ensures SubmissionPath(dir, s) == dir + "/" + Sanitise(FileName(s))
  {
    var name := FileName(s);
    assert JoinPath(dir, name) == (dir + "/") + name;
    SanitiseConcat(dir + "/", name);
    SanitiseConcat(dir, "/");
    RemoveCharAbsent(dir, ' ');
    RemoveCharAbsent(dir, ',');
    RemoveCharAbsent("/", ' ');
    RemoveCharAbsent("/", ',');
  }

  /** The whole path a submission is written to: for a download root and
      names as in TeamDirectoryLayout, a team whose sanitised name is not
      empty and does not end in `/`, and a user name not starting with `/`, it
      is `<root>/<event>/<sheet>/<assignment>/<team>/<user><id>.java` with every
      piece sanitised. */
  lemma DownloadLayout(root: string, event: string, sheet: string, assignment: string, s: Submission)
    requires root != [] && root[|root| - 1] != '/'
    requires event != [] && event[0] != '/' && event[|event| - 1] != '/'
    requires sheet != [] && sheet[0] != '/' && sheet[|sheet| - 1] != '/'
    requires assignment != [] && assignment[0] != '/' && assignment[|assignment| - 1] != '/'
    requires s.team != [] && s.team[0] != '/'
    requires Sanitise(s.team) != [] && Sanitise(s.team)[|Sanitise(s.team)| - 1] != '/'
    requires FileName(s)[0] != '/'
    ensures SubmissionPath(TeamDirectory(root, event, sheet, assignment, s.team), s)
         == Sanitise(root) + "/" + Sanitise(event) + "/" + Sanitise(sheet) + "/"
            + Sanitise(assignment) + "/" + Sanitise(s.team) + "/"
            + Sanitise(s.user) + Sanitise(s.id) + ".java"
  {
    TeamDirectoryLayout(root, event, sheet, assignment, s.team);
    PathInTeamDirectory(TeamDirectory(root, event, sheet, assignment, s.team),
      Sanitise(root) + "/" + Sanitise(event) + "/" + Sanitise(sheet) + "/" + Sanitise(assignment) + "/",
      s);
  }

  /** A submission saved into a clean directory that ends with the sanitised
      team name goes to that directory, `/` and its sanitised file name. */
  lemma PathInTeamDirectory(dir: string, front: string, s: Submission)
    requires dir == front + Sanitise(s.team) && ' ' !in dir && ',' !in dir
    requires Sanitise(s.team) != [] && Sanitise(s.team)[|Sanitise(s.team)| - 1] != '/'
    requires FileName(s)[0] != '/'
    ensures SubmissionPath(dir, s)
         == front + Sanitise(s.team) + "/" + Sanitise(s.user) + Sanitise(s.id) + ".java"
  {
    var t := Sanitise(s.team);
    assert dir[|dir| - 1] == t[|t| - 1];
    SubmissionPathInDirectory(dir, s);
    SanitiseFileName(s);
  }

  /** Every character other than space and comma survives sanitising. */
  lemma SanitiseKeeps(path: string, c: char)
    requires c != ' ' && c != ','
    ensures c in path ==> c in Sanitise(path)
  {
    SanitiseCount(path);
    if c in path {
      assert c in multiset(path);
      assert c in multiset(Sanitise(path));
    }
  }

  /** A path without spaces and commas is already sanitised. */
  lemma SanitiseClean(path: string)
    requires ' ' !in path && ',' !in path
    ensures Sanitise(path) == path
  {
    RemoveCharAbsent(path, ' ');
    RemoveCharAbsent(path, ',');
  }

  /** The sanitised file name is the sanitised user, then the sanitised id,
      then ".java". */
  lemma SanitiseFileName(s: Submission)
    ensures Sanitise(FileName(s)) == Sanitise(s.user) + Sanitise(s.id) + ".java"
  {
    SanitiseConcat(s.user + s.id, ".java");
    SanitiseConcat(s.user, s.id);
    SanitiseClean(".java");
  }

  /** The pieces of the example below, sanitised one at a time. */
  lemma ExampleUser()
    ensures Sanitise("J Doe") == "JDoe"
  {
  }

  lemma ExampleId()
    ensures Sanitise("12, 3") == "123"
  {
  }

  /** Saved into "out/", a submission whose user name does not start with
      `/` and whose user and id sanitise to "JDoe" and "123" goes to
      "out/JDoe123.java". */
  lemma ExampleInOut(dir: string, s: Submission)
    requires dir == "out/"
    requires Sanitise(s.user) == "JDoe" && Sanitise(s.id) == "123"
    ensures SubmissionPath(dir, s) == "out/JDoe123.java"
  {
    var name := FileName(s);
    SanitiseKeeps(s.user, '/');
    assert s.user != [];
    assert name[0] == s.user[0];
    assert JoinPath(dir, name) == dir + name;
    SanitiseConcat(dir, name);
    SanitiseClean(dir);
    SanitiseFileName(s);
  }

  /** The submission of user "J Doe" with id "12, 3", saved into "out/",
      goes to "out/JDoe123.java". */
  lemma SubmissionPathExample(dir: string, s: Submission)
    requires dir == "out/" && s.user == "J Doe" && s.id == "12, 3"
    ensures SubmissionPath(dir, s) == "out/JDoe123.java"
  {
    ExampleUser();
    ExampleId();
    ExampleInOut(dir, s);
  }
}
