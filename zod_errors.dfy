/**
 * Validation issues and their flattening into a field -> message object:
 * each issue writes its message under the first element of its path, in
 * order, so a later issue for the same field overwrites an earlier one.
 */
module ZodErrors {

  /** One validation issue. Path elements are held as the property-key
      strings JavaScript turns them into. */
  datatype Issue = Issue(path: seq<string>, message: string)

  /** The property key `path[0] as string`: reading index 0 of an empty path
      gives `undefined`, which becomes the key "undefined". */
  function Key(issue: Issue): (k: string)
    ensures issue.path != [] ==> k == issue.path[0]
    ensures issue.path == [] ==> k == "undefined"
  {
    if issue.path == [] then "undefined" else issue.path[0]
  }

  /** The object the issues build, one assignment per issue in order. */
  function Flatten(issues: seq<Issue>): map<string, string>
  {
    if issues == [] then map[]
    else
      var last := issues[|issues| - 1];
      Flatten(issues[..|issues| - 1])[Key(last) := last.message]
  }

  /** The keys named by the issues. */
  function IssueKeys(issues: seq<Issue>): set<string>
  {
    set i | 0 <= i < |issues| :: Key(issues[i])
  }

  /** `formatZodErrors`: walks the issues in order, assigning each message
      under its key. */
  method FormatZodErrors(issues: seq<Issue>) returns (o: map<string, string>)
    ensures o == Flatten(issues)
    ensures issues == [] ==> o == map[]
  {
    o := map[];
    var i := 0;
    while i < |issues|
      invariant 0 <= i <= |issues|
      invariant o == Flatten(issues[..i])
    {
      assert issues[..i + 1][..i] == issues[..i];
      o := o[Key(issues[i]) := issues[i].message];
      i := i + 1;
    }
    assert issues[..|issues|] == issues;
  }

  lemma IssueKeysOfPrefix(issues: seq<Issue>)
    requires issues != []
    ensures IssueKeys(issues) == IssueKeys(issues[..|issues| - 1]) + {Key(issues[|issues| - 1])}
  {
    var p := issues[..|issues| - 1];
    forall k | k in IssueKeys(issues)
      ensures k in IssueKeys(p) + {Key(issues[|issues| - 1])}
    {
      var i :| 0 <= i < |issues| && Key(issues[i]) == k;
      if i < |p| {
        assert p[i] == issues[i];
      }
    }
    forall k | k in IssueKeys(p)
      ensures k in IssueKeys(issues)
    {
      var i :| 0 <= i < |p| && Key(p[i]) == k;
      assert issues[i] == p[i];
    }
  }

  /** The object's keys are exactly the keys the issues name. */
  lemma {:induction false} FlattenKeys(issues: seq<Issue>)
    ensures Flatten(issues).Keys == IssueKeys(issues)
    decreases |issues|
  {
    if issues != [] {
      FlattenKeys(issues[..|issues| - 1]);
      IssueKeysOfPrefix(issues);
    }
  }

  /** An issue that no later issue overrides decides its key's message:
      when several issues share a key, the last one wins. */
  lemma {:induction false} FlattenLastWins(issues: seq<Issue>, i: nat)
    requires i < |issues|
    requires forall j :: i < j < |issues| ==> Key(issues[j]) != Key(issues[i])
    ensures Key(issues[i]) in Flatten(issues)
    ensures Flatten(issues)[Key(issues[i])] == issues[i].message
    decreases |issues|
  {
    var n := |issues|;
    if i < n - 1 {
      var p := issues[..n - 1];
      assert p[i] == issues[i];
      forall j | i < j < |p|
        ensures Key(p[j]) != Key(p[i])
      {
        assert p[j] == issues[j];
      }
      FlattenLastWins(p, i);
    }
  }

  /** Every value of the object is the message of an issue with that key. */
  lemma {:induction false} FlattenValuesFromIssues(issues: seq<Issue>)
    ensures forall k :: k in Flatten(issues) ==>
      exists i :: 0 <= i < |issues| && Key(issues[i]) == k && issues[i].message == Flatten(issues)[k]
    decreases |issues|
  {
    if issues != [] {
      var n := |issues|;
      var p := issues[..n - 1];
      FlattenValuesFromIssues(p);
      forall k | k in Flatten(issues)
        ensures exists i :: 0 <= i < n && Key(issues[i]) == k && issues[i].message == Flatten(issues)[k]
      {
        if k == Key(issues[n - 1]) {
          assert Key(issues[n - 1]) == k && issues[n - 1].message == Flatten(issues)[k];
        } else {
          var i :| 0 <= i < |p| && Key(p[i]) == k && p[i].message == Flatten(p)[k];
          assert issues[i] == p[i];
        }
      }
    }
  }

  /** There are never more keys than issues. */
  lemma {:induction false} FlattenSize(issues: seq<Issue>)
    ensures |Flatten(issues).Keys| <= |issues|
    decreases |issues|
  {
    if issues != [] {
      var n := |issues|;
      var p := issues[..n - 1];
      FlattenSize(p);
      var m := Flatten(p);
      var k := Key(issues[n - 1]);
      assert Flatten(issues).Keys == m.Keys + {k};
      assert |m.Keys + {k}| <= |m.Keys| + |{k}|;
    }
  }
}
