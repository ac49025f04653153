/**
 The four navigator steps (events, sheets, assignments, lessons). Each takes
 the links a page's fixed structural marker selects, in document order, and
 fills a dictionary from a label to the link's URL on the portal host.
 Fetching and parsing the page is not part of the model.
 */
module Navigator {
  import opened Portal
  import opened Strings

  /** An anchor element: its text and its relative `href`. */
  datatype Link = Link(text: string, href: string)

  /** The dictionary the loop `for a in selection: dict[a.text] = Prefix + a.href`
      leaves behind: links are inserted in order, so a later label overwrites
      an earlier one. */
  function LinkMap(links: seq<Link>): map<string, string>
  {
    if links == [] then map[]
    else
      var last := links[|links| - 1];
      LinkMap(links[..|links| - 1])[last.text := Prefix + last.href]
  }

  /** The labels of the links. */
  function Labels(links: seq<Link>): set<string>
  {
    set i | 0 <= i < |links| :: links[i].text
  }

  /** Link `i` is the last one labelled `links[i].text`. */
  predicate IsLastWithLabel(links: seq<Link>, i: int)
  {
    0 <= i < |links| && forall j :: i < j < |links| ==> links[j].text != links[i].text
  }

  /** The keys of the dictionary are exactly the labels of the links. */
  lemma {:induction false} LinkMapKeys(links: seq<Link>)
    ensures LinkMap(links).Keys == Labels(links)
  {
    if links != [] {
      var front := links[..|links| - 1];
      LinkMapKeys(front);
      assert Labels(links) == Labels(front) + {links[|links| - 1].text} by {
        forall i | 0 <= i < |front| ensures front[i] == links[i] { }
      }
    }
  }

  /** The last link with a given label decides that label's URL. */
  lemma {:induction false} LinkMapLastWins(links: seq<Link>, i: int)
    requires IsLastWithLabel(links, i)
    ensures links[i].text in LinkMap(links)
    ensures LinkMap(links)[links[i].text] == Prefix + links[i].href
  {
    if i < |links| - 1 {
      var front := links[..|links| - 1];
      assert front[i] == links[i];
      assert IsLastWithLabel(front, i) by {
        forall j | i < j < |front| ensures front[j].text != front[i].text {
          assert front[j] == links[j];
        }
      }
      LinkMapLastWins(front, i);
    }
  }

  /** Every entry of the dictionary comes from the last link with its label. */
  lemma LinkMapValues(links: seq<Link>, key: string)
    requires key in LinkMap(links)
    ensures exists i :: IsLastWithLabel(links, i) && links[i].text == key
                        && LinkMap(links)[key] == Prefix + links[i].href
  {
    LinkMapKeys(links);
    var i :| 0 <= i < |links| && links[i].text == key;
    while !IsLastWithLabel(links, i)
      invariant 0 <= i < |links| && links[i].text == key
      decreases |links| - i
    {
      var j :| i < j < |links| && links[j].text == key;
      i := j;
    }
    LinkMapLastWins(links, i);
  }

  /** The loop shared by the four navigator steps: inserts every link of the
      selection, in order, under its label. */
  method CollectLinks(selection: seq<Link>) returns (dict: map<string, string>)
    ensures dict == LinkMap(selection)
    ensures dict.Keys == Labels(selection)
    ensures forall i :: IsLastWithLabel(selection, i)
              ==> selection[i].text in dict && dict[selection[i].text] == Prefix + selection[i].href
  {
    dict := map[];
    for i := 0 to |selection|
      invariant dict == LinkMap(selection[..i])
    {
      assert selection[..i + 1][..i] == selection[..i];
      dict := dict[selection[i].text := Prefix + selection[i].href];
    }
    assert selection[..|selection|] == selection;
    LinkMapKeys(selection);
    forall i | IsLastWithLabel(selection, i)
      ensures selection[i].text in dict && dict[selection[i].text] == Prefix + selection[i].href
    {
      LinkMapLastWins(selection, i);
    }
  }

  /** `get_current_events`: the links of the list after "Current events:". */
  method GetCurrentEvents(selection: seq<Link>) returns (events: map<string, string>)
    ensures events == LinkMap(selection)
    ensures events.Keys == Labels(selection)
  {
    events := CollectLinks(selection);
  }

  /** Python's `links[2:]`: the empty list when there are fewer than two links. */
  function DropFirstTwo(links: seq<Link>): (rest: seq<Link>)
    ensures |rest| == if |links| >= 2 then |links| - 2 else 0
    ensures forall i :: 0 <= i < |rest| ==> rest[i] == links[i + 2]
  {
    if |links| >= 2 then links[2..] else []
  }

  /** A label that only the first two navigation links carry is not a sheet. */
  lemma SheetsSkipFirstTwo(navLinks: seq<Link>, i: int)
    requires 0 <= i < 2 && i < |navLinks|
    requires forall j :: 2 <= j < |navLinks| ==> navLinks[j].text != navLinks[i].text
    ensures navLinks[i].text !in LinkMap(DropFirstTwo(navLinks))
  {
    LinkMapKeys(DropFirstTwo(navLinks));
  }

  /** `get_sheets`: the navigation links with the first two skipped. The
      labels kept are those of the links from index 2 on, so a label that
      only the first two links carry never becomes a key. */
  method GetSheets(navLinks: seq<Link>) returns (sheets: map<string, string>)
    ensures sheets == LinkMap(DropFirstTwo(navLinks))
    ensures sheets.Keys == set i | 2 <= i < |navLinks| :: navLinks[i].text
  {
    var selection := DropFirstTwo(navLinks);
    sheets := CollectLinks(selection);
    assert Labels(selection) == set i | 2 <= i < |navLinks| :: navLinks[i].text by {
      forall key | key in set i | 2 <= i < |navLinks| :: navLinks[i].text
        ensures key in Labels(selection)
      {
        var i :| 2 <= i < |navLinks| && navLinks[i].text == key;
        assert selection[i - 2] == navLinks[i];
      }
    }
  }

  /** `get_assignments`: the links of the list after the page header. */
  method GetAssignments(selection: seq<Link>) returns (assignments: map<string, string>)
    ensures assignments == LinkMap(selection)
    ensures assignments.Keys == Labels(selection)
  {
    assignments := CollectLinks(selection);
  }

  /** The lesson links relabelled with the text before their first colon:
      each keeps its `href`, and its new label is the longest prefix of its
      text without a colon, so the text goes on with a colon or ends there. */
  function LessonLinks(links: seq<Link>): (relabelled: seq<Link>)
    ensures |relabelled| == |links|
    ensures forall i :: 0 <= i < |links| ==>
              && relabelled[i].href == links[i].href
              && relabelled[i].text <= links[i].text
              && ':' !in relabelled[i].text
              && (|relabelled[i].text| < |links[i].text| ==> links[i].text[|relabelled[i].text|] == ':')
  {
    seq(|links|, i requires 0 <= i < |links| => Link(BeforeColon(links[i].text), links[i].href))
  }

  /** `get_lessons`: the links to lessons, keyed on the part of their text
      before the first colon. */
  method GetLessons(selection: seq<Link>) returns (lessons: map<string, string>)
    ensures lessons == LinkMap(LessonLinks(selection))
    ensures lessons.Keys == set i | 0 <= i < |selection| :: BeforeColon(selection[i].text)
  {
    var relabelled := LessonLinks(selection);
    lessons := CollectLinks(relabelled);
    assert Labels(relabelled) == set i | 0 <= i < |selection| :: BeforeColon(selection[i].text) by {
      forall key | key in set i | 0 <= i < |selection| :: BeforeColon(selection[i].text)
        ensures key in Labels(relabelled)
      {
        var i :| 0 <= i < |selection| && BeforeColon(selection[i].text) == key;
        assert relabelled[i].text == key;
      }
    }
  }
}
