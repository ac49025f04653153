/**
 The score ledger: the grades of a list of submissions summed per team
 (`get_dict_of_points`). Grades are exact real numbers here.
 */
module Points {
  import opened Submissions

  /** What submission `s` adds to the total of `team`. */
  function Contribution(s: Submission, team: string): real
  {
    if s.team == team then s.grade else 0.0
  }

  /** The sum of the grades of `team`'s submissions. */
  function TeamTotal(subs: seq<Submission>, team: string): real
  {
    if subs == [] then 0.0
    else TeamTotal(subs[..|subs| - 1], team) + Contribution(subs[|subs| - 1], team)
  }

  /** The teams that occur in `subs`. */
  function Teams(subs: seq<Submission>): set<string>
  {
    set i | 0 <= i < |subs| :: subs[i].team
  }

  /** The ledger: one entry per team that occurs, holding that team's total. */
  function Ledger(subs: seq<Submission>): map<string, real>
  {
    map team | team in Teams(subs) :: TeamTotal(subs, team)
  }

  /** One step of the loop, `dic[t] = dic.setdefault(t, 0.0) + grade`: the
      submission's team gets an entry (starting from 0.0 when it had none)
      raised by the grade, and every other entry is left as it was. */
  function Credit(dic: map<string, real>, s: Submission): (r: map<string, real>)
    ensures r.Keys == dic.Keys + {s.team}
    ensures r[s.team] == (if s.team in dic then dic[s.team] else 0.0) + s.grade
    ensures forall team :: team in dic && team != s.team ==> r[team] == dic[team]
  {
    var withDefault := if s.team in dic then dic else dic[s.team := 0.0];
    withDefault[s.team := withDefault[s.team] + s.grade]
  }

  /** Splitting the submissions splits each team's total. */
  lemma {:induction false} TeamTotalConcat(a: seq<Submission>, b: seq<Submission>, team: string)
    ensures TeamTotal(a + b, team) == TeamTotal(a, team) + TeamTotal(b, team)
  {
    if b == [] {
      assert a + b == a;
    } else {
      var front := b[..|b| - 1];
      assert (a + b)[..|a + b| - 1] == a + front;
      TeamTotalConcat(a, front, team);
    }
  }

  /** A team that does not occur has total 0.0. */
  lemma {:induction false} TeamTotalAbsent(subs: seq<Submission>, team: string)
    requires team !in Teams(subs)
    ensures TeamTotal(subs, team) == 0.0
  {
    if subs != [] {
      var front := subs[..|subs| - 1];
      assert Teams(front) <= Teams(subs) by {
        forall t | t in Teams(front) ensures t in Teams(subs) {
          var i :| 0 <= i < |front| && front[i].team == t;
          assert subs[i] == front[i];
        }
      }
      assert subs[|subs| - 1].team in Teams(subs);
      TeamTotalAbsent(front, team);
    }
  }

  /** Taking out the element at `j` takes one copy of it out of the multiset. */
  lemma MultisetRemoveAt<T>(b: seq<T>, j: int)
    requires 0 <= j < |b|
    ensures multiset(b) == multiset(b[..j] + b[j + 1..]) + multiset{b[j]}
  {
    assert b == b[..j] + [b[j]] + b[j + 1..];
  }

  /** Taking out the submission at `j` takes its contribution out of the total. */
  lemma TeamTotalRemoveAt(b: seq<Submission>, j: int, team: string)
    requires 0 <= j < |b|
    ensures TeamTotal(b, team) == TeamTotal(b[..j] + b[j + 1..], team) + Contribution(b[j], team)
  {
    assert b == (b[..j] + [b[j]]) + b[j + 1..];
    TeamTotalConcat(b[..j] + [b[j]], b[j + 1..], team);
    TeamTotalConcat(b[..j], [b[j]], team);
    TeamTotalConcat(b[..j], b[j + 1..], team);
    assert TeamTotal([b[j]], team) == Contribution(b[j], team) by {
      assert [b[j]][..0] == [];
    }
  }

  /** Reordering the submissions changes no team's total. */
  lemma {:induction false} TeamTotalPermutation(a: seq<Submission>, b: seq<Submission>, team: string)
    requires multiset(a) == multiset(b)
    ensures TeamTotal(a, team) == TeamTotal(b, team)
    decreases |a|
  {
    if a == [] {
      assert |b| == |multiset(b)| == 0;
    } else {
      var last := a[|a| - 1];
      var front := a[..|a| - 1];
      assert a == front + [last];
      assert last in multiset(b);
      var j :| 0 <= j < |b| && b[j] == last;
      var rest := b[..j] + b[j + 1..];
      MultisetRemoveAt(a, |a| - 1);
      MultisetRemoveAt(b, j);
      assert a[..|a| - 1] + a[|a|..] == front;
      forall x ensures multiset(front)[x] == multiset(rest)[x] {
        assert (multiset(front) + multiset{last})[x] == (multiset(rest) + multiset{last})[x];
      }
      assert multiset(front) == multiset(rest);
      TeamTotalPermutation(front, rest, team);
      TeamTotalRemoveAt(b, j, team);
    }
  }

  /** The ledger does not depend on the order of the submissions. */
  lemma LedgerOrderIndependent(a: seq<Submission>, b: seq<Submission>)
    requires multiset(a) == multiset(b)
    ensures Ledger(a) == Ledger(b)
  {
    assert Teams(a) == Teams(b) by {
      forall t | t in Teams(a) ensures t in Teams(b) {
        var i :| 0 <= i < |a| && a[i].team == t;
        assert a[i] in multiset(b);
        var j :| 0 <= j < |b| && b[j] == a[i];
      }
      forall t | t in Teams(b) ensures t in Teams(a) {
        var j :| 0 <= j < |b| && b[j].team == t;
        assert b[j] in multiset(a);
        var i :| 0 <= i < |a| && a[i] == b[j];
      }
    }
    forall t | t in Teams(a) ensures TeamTotal(a, t) == TeamTotal(b, t) {
      TeamTotalPermutation(a, b, t);
    }
  }

  /** One more submission adds its team to the teams and its grade to that
      team's total. */
  lemma LedgerExtend(subs: seq<Submission>, i: nat)
    requires i < |subs|
    ensures Teams(subs[..i + 1]) == Teams(subs[..i]) + {subs[i].team}
    ensures forall team :: TeamTotal(subs[..i + 1], team) == TeamTotal(subs[..i], team) + Contribution(subs[i], team)
  {
    var done, next := subs[..i], subs[..i + 1];
    assert next[..i] == done && next[i] == subs[i];
    forall t | t in Teams(next) ensures t in Teams(done) + {subs[i].team} {
      var k :| 0 <= k < |next| && next[k].team == t;
      if k < i { assert done[k] == next[k]; }
    }
    forall t | t in Teams(done) ensures t in Teams(next) {
      var k :| 0 <= k < |done| && done[k].team == t;
      assert next[k] == done[k];
    }
  }

  /** `get_dict_of_points`: folds the submissions, in order, into the ledger.
      Its keys are exactly the teams that occur (none for no submissions) and
      each value is the sum of that team's grades. */
  method GetDictOfPoints(submissions: seq<Submission>) returns (dic: map<string, real>)
    ensures dic == Ledger(submissions)
    ensures dic.Keys == Teams(submissions)
    ensures forall team :: team in dic ==> dic[team] == TeamTotal(submissions, team)
    ensures submissions == [] ==> dic == map[]
  {
    dic := map[];
    for i := 0 to |submissions|
      invariant dic.Keys == Teams(submissions[..i])
      invariant forall team :: team in dic ==> dic[team] == TeamTotal(submissions[..i], team)
    {
      var s := submissions[i];
      var done := submissions[..i];
      LedgerExtend(submissions, i);
      if s.team !in dic {
        TeamTotalAbsent(done, s.team);
      }
      dic := Credit(dic, s);
    }
    assert submissions[..|submissions|] == submissions;
  }

  /** The ledger of three submissions, two of team "A" graded 3.0 and 4.5 and
      one of team "B" graded 2.0, is {"A": 7.5, "B": 2.0}. */
  lemma ThreeSubmissionsExample(subs: seq<Submission>)
    requires |subs| == 3
    requires subs[0].team == "A" && subs[0].grade == 3.0
    requires subs[1].team == "A" && subs[1].grade == 4.5
    requires subs[2].team == "B" && subs[2].grade == 2.0
    ensures Ledger(subs) == map["A" := 7.5, "B" := 2.0]
  {
    assert Teams(subs) == {"A", "B"} by {
      assert subs[0].team in Teams(subs) && subs[2].team in Teams(subs);
    }
    assert subs[..2][..1] == subs[..1] && subs[..1][..0] == [] && subs[..3][..2] == subs[..2];
    assert subs[..3] == subs;
    assert TeamTotal(subs[..1], "A") == 3.0 && TeamTotal(subs[..1], "B") == 0.0;
    assert TeamTotal(subs[..2], "A") == 7.5 && TeamTotal(subs[..2], "B") == 0.0;
    assert TeamTotal(subs, "A") == 7.5 && TeamTotal(subs, "B") == 2.0;
  }
}
