/** The due-date reformat of the `due_date` handler: the input is split on '-'
    and its first three fields are written back in reverse order. */
module DueDate {
  import opened Schema

  /** `'-'.join(fields)`. */
  function Join(fields: seq<string>): string
    requires |fields| >= 1
  {
    if |fields| == 1 then fields[0] else fields[0] + "-" + Join(fields[1..])
  }

  /** Python's `s.split('-')`: the dash-free fields of `s`, in order; never empty. */
  function Split(s: string): (fields: seq<string>)
    ensures |fields| >= 1
    ensures forall i :: 0 <= i < |fields| ==> '-' !in fields[i]
    ensures Join(fields) == s
  {
    if s == [] then [""]
    else
      var rest := Split(s[1..]);
      assert s == [s[0]] + s[1..];
      if s[0] == '-' then
        assert ([""] + rest)[1..] == rest;
        [""] + rest
      else
        var fields := [[s[0]] + rest[0]] + rest[1..];
        assert fields[1..] == rest[1..];
        assert |rest| > 1 ==> Join(rest) == rest[0] + "-" + Join(rest[1..]);
        fields
  }

  /** Reformats the submitted date: "a-b-c" becomes "c-b-a". An empty field leaves
      the formatted value unbound and fewer than three fields index past the end of
      the split; both are failures that store nothing. */
  function Reformat(input: string): (r: Result<string>)
    ensures input == "" ==> r == Err(EmptyDate)
    ensures input != "" && r.Err? ==> r == Err(MalformedDate) && |Split(input)| < 3
    ensures r.Ok? ==> var f := Split(input); |f| >= 3 && Split(r.value) == [f[2], f[1], f[0]]
  {
    if input == "" then Err(EmptyDate)
    else
      var fields := Split(input);
      if |fields| < 3 then Err(MalformedDate)
      else
        var reversed := [fields[2], fields[1], fields[0]];
        assert Join(reversed[1..]) == fields[1] + "-" + fields[0] by {
          assert reversed[1..][1..] == [fields[0]];
        }
        assert Join(reversed) == fields[2] + "-" + fields[1] + "-" + fields[0];
        SplitJoin(reversed);
        Ok(fields[2] + "-" + fields[1] + "-" + fields[0])
  }

  /** A dash-free string is a single field. */
  lemma SplitLastField(f: string)
    requires '-' !in f
    ensures Split(f) == [f]
  {
  }

  lemma {:induction false} SplitLeadingField(f: string, s: string)
    requires '-' !in f
    ensures Split(f + "-" + s) == [f] + Split(s)
  {
    if f == [] {
      assert (f + "-" + s)[1..] == s;
    } else {
      assert '-' !in f[1..] by { assert forall i :: 0 <= i < |f[1..]| ==> f[1..][i] == f[i + 1]; }
      SplitLeadingField(f[1..], s);
      assert (f + "-" + s)[1..] == f[1..] + "-" + s;
      assert [f[0]] + f[1..] == f;
    }
  }

  /** Splitting undoes joining dash-free fields. */
  lemma {:induction false} SplitJoin(fields: seq<string>)
    requires |fields| >= 1
    requires forall i :: 0 <= i < |fields| ==> '-' !in fields[i]
    ensures Split(Join(fields)) == fields
  {
    if |fields| == 1 {
      SplitLastField(fields[0]);
    } else {
      SplitJoin(fields[1..]);
      SplitLeadingField(fields[0], Join(fields[1..]));
      assert [fields[0]] + fields[1..] == fields;
    }
  }

  /** Each '-' of the input ends one field: the split has one field more than
      the input has dashes. */
  lemma {:induction false} SplitCountsDashes(s: string)
    ensures |Split(s)| == multiset(s)['-'] + 1
  {
    if s != [] {
      SplitCountsDashes(s[1..]);
      assert s == [s[0]] + s[1..];
      assert multiset(s) == multiset([s[0]]) + multiset(s[1..]);
    }
  }

  /** Three dash-free fields "a-b-c" come back in reverse order, "c-b-a". */
  lemma ReformatSwapsFields(a: string, b: string, c: string)
    requires '-' !in a && '-' !in b && '-' !in c
    ensures Reformat(a + "-" + b + "-" + c) == Ok(c + "-" + b + "-" + a)
  {
    var s := a + "-" + b + "-" + c;
    var fields := [a, b, c];
    assert Join(fields[1..]) == b + "-" + c by {
      assert fields[1..][1..] == [c];
    }
    assert s == Join(fields);
    SplitJoin(fields);
    assert s[|a|] == '-';
  }

  /** The reformat is defined exactly when the input holds at least two dashes;
      the empty input in particular is rejected. */
  lemma ReformatDefinedIff(input: string)
    ensures Reformat(input).Ok? <==> multiset(input)['-'] >= 2
    ensures input == "" ==> Reformat(input) == Err(EmptyDate)
  {
    SplitCountsDashes(input);
  }

  /** On a three-field date the reformat is its own inverse. */
  lemma ReformatTwice(input: string)
    requires |Split(input)| == 3
    ensures Reformat(input).Ok?
    ensures Reformat(Reformat(input).value) == Ok(input)
  {
    var f := Split(input);
    assert Join(f[1..]) == f[1] + "-" + f[2] by {
      assert f[1..][1..] == [f[2]];
    }
    assert input == f[0] + "-" + f[1] + "-" + f[2];
    ReformatSwapsFields(f[0], f[1], f[2]);
    ReformatSwapsFields(f[2], f[1], f[0]);
  }
}
