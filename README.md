# sauceGrabber, modelled in Dafny

sauceGrabber is a script that logs in to the SAUCE coursework-submission
portal of the University of Mainz. It walks the portal's pages
(events → sheets → assignments → lessons → submissions), turns each row of a
submission table into a `Submission` record, sums the grades per team and can
download the submitted files to disk.

This project models the parts of `SauceGrabber.py` that are logic rather than
HTTP and HTML plumbing. They start from the point where a page has already
been reduced to plain strings and records.

- **Portal** (`Portal.dfy`): the base URL `https://sauce.zdv.uni-mainz.de` that
  every relative `href` is appended to.
- **Strings** (`Strings.dfy`): the Python string operations the script uses.
  - `str.strip()`, using exactly the code points for which `str.isspace()` is true.
  - `s.split(":")[0]`.
  - The slice `s[0:-n]` for `n` ≥ 1, with Python's clamping for short strings.
  - `s.replace(c, "")`.
- **Submissions** (`Submissions.dfy`): a table row is given as its cell texts
  and links. `SubmissionOf` does what the `Submission` constructor does:
  - the grade is 0.0 when there is no grade span;
  - the URLs are the base URL followed by the row's `href`s;
  - the root URL is the "Show" URL without its last five characters;
  - the text fields are stripped.

  `GetListOfSubmissions` is the loop of `get_list_of_submissions`.
- **Navigator** (`Navigator.dfy`): the four label→URL dictionaries.
  - `get_current_events`, `get_sheets`, `get_assignments` and `get_lessons`
    share one loop, `CollectLinks`, which runs over the links their selectors pick.
  - `get_sheets` skips the first two links (`[2:]`).
  - `get_lessons` keys on the text before the first colon.
  - `LinkMap` is the reference definition: links are inserted in order, so the
    last link with a given label wins.
- **Points** (`Points.dfy`): `get_dict_of_points` as a loop over a map.
  - It is proved equal to `Ledger`: one entry per team that occurs, holding the
    sum of that team's grades.
  - The ledger is proved not to depend on the order of the submissions, for exact grades.
- **Downloads** (`Downloads.dfy`): the paths the downloader writes to.
  - Paths are joined as POSIX `os.path.join` does.
  - Spaces and commas are then removed.
  - The result has no space or comma, and sanitising again changes nothing.

Grades are exact `real` numbers.

## Model

| member | source | states |
|---|---|---|
| Strings.Strip | SauceGrabber.py:21-28 | the stripped text neither starts nor ends with white space (as `str.isspace()` defines it) |
| Strings.StripCut | SauceGrabber.py:21-28 | the stripped text is a contiguous slice of the cell text, and everything cut off on either side is white space |
| Strings.StripIdempotent | SauceGrabber.py:21-28 | stripping an already stripped text changes nothing |
| Strings.BeforeColon | SauceGrabber.py:121 | `split(":")[0]` is a prefix of the text with no colon in it, followed in the text by a colon or nothing, so a text without a colon is its own key |
| Strings.DropLast | SauceGrabber.py:31 | for `n` ≥ 1, the slice `[0:-n]` is the prefix of the string that is `n` shorter, or empty when the string is shorter than `n` |
| Strings.RemoveChar | SauceGrabber.py:145 | `replace(c, "")` leaves no `c` and adds no character |
| Strings.RemoveCharCount | SauceGrabber.py:145 | every character other than `c` keeps its number of occurrences |
| Strings.RemoveCharConcat | SauceGrabber.py:145 | deleting a character distributes over concatenation, so the kept characters stay in order |
| Strings.RemoveCharAbsent | SauceGrabber.py:145 | deleting a character that does not occur changes nothing |
| Submissions.RootUrl | SauceGrabber.py:31 | `root_url` is a prefix of `show_url`; when `show_url` has at least five characters (every one the script builds has at least 30) it is exactly five characters shorter, and otherwise it is empty |
| Submissions.SubmissionOf | SauceGrabber.py:12-31 | grade 0.0 without a grade span, else the span's value; `show_url` is the base URL followed by the Show link; `root_url` is a prefix of `show_url` five characters shorter and, when the Show link has at least five characters, is the base URL followed by that link without its last five; the judgement and delete URLs are the base URL followed by their links; id, team, user, created, modified, language, assignment and result are the stripped cell texts |
| Submissions.SubmissionList | SauceGrabber.py:131-137 | the reference list holds one record per row |
| Submissions.SubmissionListAt | SauceGrabber.py:131-137 | the k-th record of the list is built from the k-th row |
| Submissions.SubmissionListExtend | SauceGrabber.py:135-136 | appending the next row's record gives the list of one more row |
| Submissions.GetListOfSubmissions | SauceGrabber.py:131-137 | the loop returns exactly as many records as rows, the i-th built from the i-th row |
| Navigator.LinkMapKeys | SauceGrabber.py:89-90 | the keys of the dictionary are exactly the labels of the links |
| Navigator.LinkMapLastWins | SauceGrabber.py:89-90 | the last link with a label decides that label's URL, base URL followed by its `href` |
| Navigator.LinkMapValues | SauceGrabber.py:89-90 | every entry is the base URL followed by the `href` of the last link carrying its key |
| Navigator.CollectLinks | SauceGrabber.py:87-90 | the loop builds the reference dictionary; its keys are the labels and each label maps to the URL of its last link |
| Navigator.GetCurrentEvents | SauceGrabber.py:84-91 | the events dictionary is the reference dictionary of the selected links, keyed by their labels |
| Navigator.DropFirstTwo | SauceGrabber.py:98 | `[2:]` holds the links from index 2 on, and nothing when there are fewer than two links |
| Navigator.SheetsSkipFirstTwo | SauceGrabber.py:98-100 | a label that only the first two links carry never becomes a sheet |
| Navigator.GetSheets | SauceGrabber.py:94-101 | the sheets dictionary is built from the links at index 2 onwards, and its keys are exactly their labels |
| Navigator.GetAssignments | SauceGrabber.py:104-111 | the assignments dictionary is the reference dictionary of the selected links, keyed by their labels |
| Navigator.LessonLinks | SauceGrabber.py:121 | each lesson link keeps its `href`; its new label is a prefix of its text with no colon, and the text goes on with a colon right after it or ends there |
| Navigator.GetLessons | SauceGrabber.py:114-122 | the lessons dictionary is the reference dictionary of the relabelled links; its keys are exactly the texts before the first colon |
| Points.Credit | SauceGrabber.py:182 | one step adds the submission's team as a key, starting from 0.0 when absent, raises that team's total by the grade and leaves every other entry as it was |
| Points.TeamTotalConcat | SauceGrabber.py:181-182 | a team's total over two runs of submissions is the sum of its totals over each |
| Points.TeamTotalAbsent | SauceGrabber.py:182 | a team with no submission has total 0.0, so the `setdefault` default agrees with the sum |
| Points.TeamTotalRemoveAt | SauceGrabber.py:181-182 | taking out one submission takes exactly its contribution out of its team's total |
| Points.TeamTotalPermutation | SauceGrabber.py:178-184 | reordering the submissions changes no team's total, with grades as exact reals |
| Points.LedgerOrderIndependent | SauceGrabber.py:178-184 | any two orderings of the same submissions give the same ledger, with grades as exact reals |
| Points.LedgerExtend | SauceGrabber.py:181-182 | one more submission adds only its team to the teams and its grade only to that team's total |
| Points.GetDictOfPoints | SauceGrabber.py:178-184 | the keys are exactly the teams that occur (none for no submissions), and each value is the sum of that team's grades |
| Points.ThreeSubmissionsExample | SauceGrabber.py:178-184 | team A graded 3.0 and 4.5 and team B graded 2.0 give {A: 7.5, B: 2.0} |
| Downloads.JoinPath | SauceGrabber.py:159-161 | POSIX `os.path.join` of two parts, as at lines 145, 159 and 161: an absolute second part replaces the first; otherwise the result starts with the first part and ends with the second, with a single `/` between them exactly when the first part is non-empty and does not end in `/`; `TeamDirectoryLayout` and `SubmissionPathInDirectory` state the joins the script makes |
| Downloads.Sanitise | SauceGrabber.py:145 | the sanitised path holds no space and no comma, and no character that the path lacks |
| Downloads.SanitiseCount | SauceGrabber.py:145 | every character other than space and comma keeps its number of occurrences |
| Downloads.SanitiseIdempotent | SauceGrabber.py:145 | sanitising a second time leaves the path unchanged |
| Downloads.SanitiseConcat | SauceGrabber.py:145 | sanitising works piece by piece and keeps the order of the kept characters |
| Downloads.SanitiseClean | SauceGrabber.py:145 | a path without spaces and commas is left as it is |
| Downloads.TeamDirectory | SauceGrabber.py:159-162 | the team directory built from the download root, event, sheet, assignment and team holds no space and no comma |
| Downloads.TeamDirectoryLayout | SauceGrabber.py:159-162 | for a non-empty root not ending in `/`, non-empty event, sheet, assignment and team names not starting with `/`, and event, sheet and assignment names not ending in `/`, the team directory is `<root>/<event>/<sheet>/<assignment>/<team>` with every piece sanitised |
| Downloads.SubmissionPath | SauceGrabber.py:145 | the file path of a downloaded submission holds no space and no comma |
| Downloads.SanitiseFileName | SauceGrabber.py:145 | the sanitised file name (`FileName`, the `user + id + ".java"` of the source) is the sanitised user, then the sanitised id, then `.java` |
| Downloads.SanitiseKeeps | SauceGrabber.py:145 | every character other than space and comma that occurs in a path still occurs after sanitising |
| Downloads.SubmissionPathInDirectory | SauceGrabber.py:145 | in a clean, non-empty directory not ending in `/`, a relative file name lands at directory + `/` + sanitised name |
| Downloads.PathInTeamDirectory | SauceGrabber.py:145 | in a clean directory ending with the sanitised team name, itself non-empty and not ending in `/`, a relative file name lands at that directory + `/` + sanitised user + sanitised id + `.java` |
| Downloads.DownloadLayout | SauceGrabber.py:145-162 | with the conditions of `TeamDirectoryLayout`, a sanitised team name that is non-empty and does not end in `/`, and a file name not starting with `/`, a submission is written to `<root>/<event>/<sheet>/<assignment>/<team>/<user><id>.java` with every piece sanitised |
| Downloads.ExampleInOut | SauceGrabber.py:145 | in `out/`, a user and id that sanitise to `JDoe` and `123` give `out/JDoe123.java` |
| Downloads.SubmissionPathExample | SauceGrabber.py:145 | user `J Doe` with id `12, 3` saved in `out/` goes to `out/JDoe123.java` |

## Left out

- Logging in (`login_sauce`) and every HTTP request: this is network I/O. The fetch of `root_url + "/download"` is left out with it.
- HTML parsing with BeautifulSoup and its selectors, including the regex `href` filter of `get_lessons`: this is a foreign library. Its output is an input to the model: the `Link` sequence each navigator step selects, and one `Row` of cell texts per table row.
- A missing structural marker or table cell. The script then fails with an uncaught exception (an AttributeError, a TypeError or a KeyError), which the model does not represent, because locating elements is not modelled. An anchor whose `.string` is `None` is left out for the same reason.
- `float(grade.string)`: parsing a float is left out. A row carries the grade span's value already as a number.
- Floating-point addition: grades are exact reals, so no rounding behaviour is claimed. Points.TeamTotalPermutation and Points.LedgerOrderIndependent hold for exact reals only: with the script's float additions a team's total can differ in its last bits when the submissions come in another order.
- The `judgement` field: the source compares with Python's object-identity `is`, which is not a reliable string comparison, so no property is stated. The same goes for the status check `status_code is not 200` in the login.
- `read_config`, the `__main__` block and every `print`: configuration, command-line and console plumbing.
- `get_own_submissions_of_assignment`, `get_all_own_submissions`, `get_scores` and the dictionary lookups `download_all_submissions_from_sheet` makes: they only chain fetches and the modelled functions together.
- Creating directories and writing files in `download_submission`: file-system effects. Only the path computed before writing is modelled.
- Downloads.JoinPath: models POSIX `os.path.join`, not the Windows variant.
- Navigator.LinkMap, Navigator.CollectLinks and Points.GetDictOfPoints: the order of the keys is not modelled. A Python dictionary keeps insertion order, so a repeated label stays where it first appeared while taking the last URL. The script relies on that order when it downloads assignments in the order of `get_assignments(sheet).items()` and when it prints the scores team by team. A Dafny `map` has no order.
