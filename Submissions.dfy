/**
 Table rows of a submission listing and the Submission records built from
 them. A row is given as the texts and links that the page's fixed column
 classes point at; locating those cells in the HTML is not part of the model.
 */
module Submissions {
  import opened Portal
  import opened Strings

  datatype Option<T> = None | Some(value: T)

  /** One `<tr>` of the listing's `<tbody>`, cell by cell (`col_0` .. `col_10`). */
  datatype Row = Row(
    showHref: string,          // col_0: href of the link titled "Show"
    idText: string,            // col_1
    userText: string,          // col_2
    teamText: string,          // col_3
    assignmentText: string,    // col_4: text of its link
    languageText: string,      // col_5
    createdText: string,       // col_6
    modifiedText: string,      // col_7
    resultText: string,        // col_8: text of its span
    judgementHref: string,     // col_9: href of its link
    gradeSpan: Option<real>,   // col_10: the span's value, None when there is no span
    deleteHref: string         // href of the "btn btn-danger" link
  )

  /** A graded submission as the grabber keeps it; never changed once built. */
  datatype Submission = Submission(
    grade: real,
    judgementUrl: string,
    created: string,
    modified: string,
    language: string,
    assignment: string,
    team: string,
    user: string,
    id: string,
    result: string,
    deleteUrl: string,
    showUrl: string,
    rootUrl: string
  )

  /** Length of the suffix of the "Show" URL that is cut off to get the
      submission's root URL. */
  const ShowSuffixLength: nat := 5

  /** The submission's root URL: its "Show" URL without the last five characters. */
  function RootUrl(showUrl: string): (r: string)
    ensures r <= showUrl
    ensures |showUrl| >= ShowSuffixLength ==> |r| == |showUrl| - ShowSuffixLength
    ensures |showUrl| < ShowSuffixLength ==> r == []
  {
    DropLast(showUrl, ShowSuffixLength)
  }

  /** Builds the record of one row, as the `Submission` constructor does. */
  function SubmissionOf(row: Row): (s: Submission)
    ensures row.gradeSpan.None? ==> s.grade == 0.0
    ensures row.gradeSpan.Some? ==> s.grade == row.gradeSpan.value
    ensures s.showUrl == Prefix + row.showHref
    ensures s.rootUrl <= s.showUrl && |s.rootUrl| == |s.showUrl| - ShowSuffixLength
    ensures |row.showHref| >= ShowSuffixLength
            ==> s.rootUrl == Prefix + row.showHref[..|row.showHref| - ShowSuffixLength]
    ensures s.judgementUrl == Prefix + row.judgementHref && s.deleteUrl == Prefix + row.deleteHref
    ensures s.id == Strip(row.idText) && s.team == Strip(row.teamText) && s.user == Strip(row.userText)
    ensures s.created == Strip(row.createdText) && s.modified == Strip(row.modifiedText)
    ensures s.language == Strip(row.languageText) && s.assignment == Strip(row.assignmentText)
    ensures s.result == Strip(row.resultText)
  {
    PrefixLength();
    var showUrl := Prefix + row.showHref;
    var rootUrl := RootUrl(showUrl);
    assert |row.showHref| >= ShowSuffixLength
           ==> rootUrl == Prefix + row.showHref[..|row.showHref| - ShowSuffixLength] by {
      if |row.showHref| >= ShowSuffixLength {
        assert showUrl[..|showUrl| - ShowSuffixLength]
            == Prefix + row.showHref[..|row.showHref| - ShowSuffixLength];
      }
    }
    Submission(
      grade := match row.gradeSpan { case None => 0.0 case Some(g) => g },
      judgementUrl := Prefix + row.judgementHref,
      created := Strip(row.createdText),
      modified := Strip(row.modifiedText),
      language := Strip(row.languageText),
      assignment := Strip(row.assignmentText),
      team := Strip(row.teamText),
      user := Strip(row.userText),
      id := Strip(row.idText),
      result := Strip(row.resultText),
      deleteUrl := Prefix + row.deleteHref,
      showUrl := showUrl,
      rootUrl := rootUrl
    )
  }

  /** The records of `rows`, one per row, in row order. */
  function SubmissionList(rows: seq<Row>): (subs: seq<Submission>)
    ensures |subs| == |rows|
  {
    if rows == [] then []
    else SubmissionList(rows[..|rows| - 1]) + [SubmissionOf(rows[|rows| - 1])]
  }

  /** The `k`-th record is built from the `k`-th row. */
  lemma {:induction false} SubmissionListAt(rows: seq<Row>, k: nat)
    requires k < |rows|
    ensures SubmissionList(rows)[k] == SubmissionOf(rows[k])
  {
    var front := rows[..|rows| - 1];
    assert SubmissionList(rows) == SubmissionList(front) + [SubmissionOf(rows[|rows| - 1])];
    if k < |rows| - 1 {
      assert front[k] == rows[k];
      SubmissionListAt(front, k);
    }
  }

  /** The list of one more row is the list so far with that row's record appended. */
  lemma SubmissionListExtend(rows: seq<Row>, i: nat)
    requires i < |rows|
    ensures SubmissionList(rows[..i + 1]) == SubmissionList(rows[..i]) + [SubmissionOf(rows[i])]
  {
    assert rows[..i + 1][..i] == rows[..i] && rows[..i + 1][i] == rows[i];
  }

  /** One record per row, in row order: the `Submission` built from the
      `i`-th row is the `i`-th element of the list. */
  method GetListOfSubmissions(rows: seq<Row>) returns (submissions: seq<Submission>)
    ensures |submissions| == |rows|
    ensures forall i :: 0 <= i < |rows| ==> submissions[i] == SubmissionOf(rows[i])
  {
    submissions := [];
    var i := 0;
    while i < |rows|
      invariant 0 <= i <= |rows|
      invariant submissions == SubmissionList(rows[..i])
    {
      SubmissionListExtend(rows, i);
      submissions := submissions + [SubmissionOf(rows[i])];
      i := i + 1;
    }
    assert rows[..i] == rows;
    forall k | 0 <= k < |rows| ensures submissions[k] == SubmissionOf(rows[k]) {
      SubmissionListAt(rows, k);
    }
  }
}
