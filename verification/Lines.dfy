/** strings.Split and strings.Join at newlines. */
module Lines {
  import opened Strings

  function Split(s: string): (r: seq<string>)
    ensures |r| >= 1
  {
    if s == [] then [""]
    else if s[0] == '\n' then [""] + Split(s[1..])
    else var r := Split(s[1..]); [[s[0]] + r[0]] + r[1..]
  }

  function Join(ls: seq<string>): string {
    if ls == [] then "" else if |ls| == 1 then ls[0] else ls[0] + "\n" + Join(ls[1..])
  }

  predicate OneLine(s: string) {
    '\n' !in s
  }

  predicate OneLiners(ls: seq<string>) {
    forall l :: l in ls ==> OneLine(l)
  }

  /** A newline separates the lines before it from those after it. */
  lemma {:induction false} SplitConcat(a: string, b: string)
    ensures Split(a + "\n" + b) == Split(a) + Split(b)
  {
    if a == [] {
      assert (a + "\n" + b)[1..] == b;
    } else {
      SplitConcat(a[1..], b);
      SplitStep(a, b);
    }
  }

  lemma SplitStep(a: string, b: string)
    requires a != [] && Split(a[1..] + "\n" + b) == Split(a[1..]) + Split(b)
    ensures Split(a + "\n" + b) == Split(a) + Split(b)
  {
    var s, r := a + "\n" + b, Split(a[1..]);
    assert s[1..] == a[1..] + "\n" + b && s[0] == a[0];
    assert (r + Split(b))[1..] == r[1..] + Split(b) && (r + Split(b))[0] == r[0];
    if a[0] == '\n' {
      Assoc([""], r, Split(b));
    } else {
      Assoc([[a[0]] + r[0]], r[1..], Split(b));
    }
  }

  lemma {:induction false} SplitOne(l: string)
    requires OneLine(l)
    ensures Split(l) == [l]
  {
    if l != [] {
      assert l[0] in l;
      SplitOne(l[1..]);
      assert [l[0]] + l[1..] == l;
    }
  }

  lemma {:induction false} SplitIsLines(s: string)
    ensures Join(Split(s)) == s && OneLiners(Split(s))
  {
    if s != [] {
      var r := Split(s[1..]);
      SplitIsLines(s[1..]);
      if s[0] == '\n' {
        assert Split(s)[1..] == r;
        assert Join(Split(s)) == [] + "\n" + s[1..];
      } else {
        var f := [s[0]] + r[0];
        assert Split(s)[1..] == r[1..];
        assert forall l :: l in r[1..] ==> l in r;
        assert r[0] in r && forall c :: c in f ==> c == s[0] || c in r[0];
        assert Join(Split(s)) == [s[0]] + Join(r);
      }
    }
  }

  /** Lines joined, then split again. */
  lemma {:induction false} SplitJoin(ls: seq<string>)
    requires ls != [] && OneLiners(ls)
    ensures Split(Join(ls)) == ls
  {
    assert ls[0] in ls && forall l :: l in ls[1..] ==> l in ls;
    SplitOne(ls[0]);
    if |ls| > 1 {
      SplitJoin(ls[1..]);
      SplitConcat(ls[0], Join(ls[1..]));
    }
  }

  /** strings.Join with empty lines between. */
  function JoinBlank(ts: seq<string>): string {
    if ts == [] then "" else if |ts| == 1 then ts[0] else JoinBlank(ts[..|ts| - 1]) + "\n\n" + ts[|ts| - 1]
  }

  lemma JoinBlankLast(ts: seq<string>, t: string)
    ensures JoinBlank(ts + [t]) == if ts == [] then t else JoinBlank(ts) + "\n\n" + t
  {
    assert (ts + [t])[..|ts|] == ts;
  }

  lemma {:induction false} JoinBlankConserves(ts: seq<string>)
    ensures NonSpace(JoinBlank(ts)) == NonSpace(Concat(ts))
  {
    if |ts| > 1 {
      var front, t := ts[..|ts| - 1], ts[|ts| - 1];
      assert ts == front + [t];
      JoinBlankConserves(front);
      JoinShows(JoinBlank(front), "\n\n", t);
      ConcatAppend(front, [t]);
      ConcatOne(t);
      NonSpaceConcat(Concat(front), t);
    } else if |ts| == 1 {
      assert ts == [ts[0]];
      ConcatOne(ts[0]);
    }
  }

  lemma {:induction false} JoinBlankTight(ts: seq<string>)
    requires ts != [] && forall t :: t in ts ==> t != "" && Tight(t, IsSpace)
    ensures JoinBlank(ts) != "" && Tight(JoinBlank(ts), IsSpace)
  {
    var front, t := ts[..|ts| - 1], ts[|ts| - 1];
    assert t in ts;
    if |ts| > 1 {
      assert forall u :: u in front ==> u in ts;
      JoinBlankTight(front);
    }
  }

  /** Joining with newlines adds only white space. */
  lemma {:induction false} JoinConserves(ls: seq<string>)
    ensures NonSpace(Join(ls)) == NonSpace(Concat(ls))
  {
    if |ls| > 1 {
      JoinConserves(ls[1..]);
      JoinShows(ls[0], "\n", Join(ls[1..]));
      NonSpaceConcat(ls[0], Concat(ls[1..]));
    } else if |ls| == 1 {
      assert ls == [ls[0]];
      ConcatOne(ls[0]);
    }
  }

  /** Joined tight lines are tight. */
  lemma {:induction false} JoinTight(ls: seq<string>)
    requires ls != [] && forall l :: l in ls ==> l != "" && Tight(l, IsSpace)
    ensures Join(ls) != "" && Tight(Join(ls), IsSpace)
  {
    assert ls[0] in ls;
    if |ls| > 1 {
      assert forall l :: l in ls[1..] ==> l in ls;
      JoinTight(ls[1..]);
    }
  }
}
