/** What the layout promises about every job, and what it writes for the tag job. */
module LayoutProperties {
  import opened Layout
  import J = Jobs

  /** The row a key comes from, read back from the key alone. */
  function KeyRow(k: Key): int {
    match k
    case Alias(a) =>
      if a == "runs-on" then 1 else if a == "needs" then 2 else if a == "if" then 3
      else if a == "timeout-minutes" then 7 else if a == "env" then 9 else -1
    case Property(n) =>
      if n == "Name" then 0 else if n == "Environment" then 4 else if n == "Defaults" then 5
      else if n == "Steps" then 6 else if n == "Strategy" then 8 else if n == "Outputs" then 10 else -1
  }

  /** The row a member sits in, read back from the member alone. */
  function FieldRow(f: Field): int {
    match f
    case Name => 0 case RunsOn => 1 case Needs => 2 case If => 3 case Environment => 4
    case Defaults => 5 case Steps => 6 case TimeoutInMinutes => 7 case Strategy => 8
    case EnvironmentVariables => 9 case Outputs => 10
  }

  /** Positions run 0 to 10 in table order, and each row's key and member identify that row. */
  lemma TablePositions()
    ensures |Table| == 11
    ensures forall i :: 0 <= i < |Table| ==> Table[i].order == i
    ensures forall i :: 0 <= i < |Table| ==> KeyRow(KeyOf(Table[i])) == i && FieldRow(Table[i].field) == i
  {
  }

  /** Positions strictly increase, each member appears once, and no two keys coincide. */
  lemma TableShape()
    ensures Increasing(Table)
    ensures forall i, j :: 0 <= i < j < |Table| ==> Table[i].field != Table[j].field
    ensures DistinctKeys(Table)
  {
    TablePositions();
  }

  /** The aliases are exactly `runs-on`, `needs`, `if`, `timeout-minutes` and `env`, on their members. */
  lemma Aliases()
    ensures (set m | m in Table && m.alias.Some? :: m.alias.value)
         == {"runs-on", "needs", "if", "timeout-minutes", "env"}
    ensures forall m :: m in Table && m.alias.Some? ==>
      (m.field, m.alias.value) in {(RunsOn, "runs-on"), (Needs, "needs"), (If, "if"),
                                   (TimeoutInMinutes, "timeout-minutes"), (EnvironmentVariables, "env")}
  {
  }

  /** The rendered rows are exactly the rows of the table that are rendered. */
  lemma {:induction false} RenderedRows(table: seq<Member>, job: J.Job)
    ensures forall m :: m in Render(table, job) <==> m in table && Rendered(m, job)
    decreases |table|
  {
    if table != [] {
      RenderedRows(table[1..], job);
      assert table == [table[0]] + table[1..];
    }
  }

  /** Leaving rows out never reorders the rest. */
  lemma {:induction false} RenderKeepsOrder(table: seq<Member>, job: J.Job)
    requires Increasing(table)
    ensures Increasing(Render(table, job))
    decreases |table|
  {
    if table != [] {
      RenderKeepsOrder(table[1..], job);
      RenderedRows(table[1..], job);
      var rest := Render(table[1..], job);
      forall k | 0 <= k < |rest|
        ensures table[0].order < rest[k].order
      {
        assert rest[k] in table[1..];
      }
    }
  }

  /** The keys of a job come out in the order of the positions in the table. */
  lemma RenderedInPositionOrder(job: J.Job)
    ensures Increasing(Render(Table, job))
  {
    TableShape();
    RenderKeepsOrder(Table, job);
  }

  /** With distinct keys, a row's key is written exactly when the row is rendered. */
  lemma KeyWrittenIffRendered(table: seq<Member>, job: J.Job, i: nat)
    requires DistinctKeys(table) && i < |table|
    ensures KeyOf(table[i]) in Keys(Render(table, job)) <==> Rendered(table[i], job)
  {
    var r := Render(table, job);
    RenderedRows(table, job);
    if KeyOf(table[i]) in Keys(r) {
      var k :| 0 <= k < |r| && Keys(r)[k] == KeyOf(table[i]);
      assert r[k] in table;
      var i' :| 0 <= i' < |table| && table[i'] == r[k];
      if i' != i {
        assert KeyOf(table[i']) != KeyOf(table[i]);
      }
    }
    if Rendered(table[i], job) {
      assert table[i] in r;
      var k :| 0 <= k < |r| && r[k] == table[i];
      assert Keys(r)[k] == KeyOf(table[i]);
    }
  }

  /**
   * The omission policy: `runs-on` and the steps are always written; every
   * other member is written exactly when it does not hold its default.
   */
  lemma OmitDefaults(job: J.Job)
    ensures Alias("runs-on") in RenderedKeys(job)
    ensures Property("Steps") in RenderedKeys(job)
    ensures forall i :: 0 <= i < |Table| && Table[i].field != RunsOn && Table[i].field != Steps ==>
      (KeyOf(Table[i]) in RenderedKeys(job) <==> !AtDefault(job, Table[i].field))
  {
    TableShape();
    KeyWrittenIffRendered(Table, job, 1);
    KeyWrittenIffRendered(Table, job, 6);
    forall i | 0 <= i < |Table| && Table[i].field != RunsOn && Table[i].field != Steps
      ensures KeyOf(Table[i]) in RenderedKeys(job) <==> !AtDefault(job, Table[i].field)
    {
      KeyWrittenIffRendered(Table, job, i);
    }
  }

  /** Every key written from a table belongs to some row of that table. */
  lemma KeysFromRows(table: seq<Member>, job: J.Job)
    ensures forall key :: key in Keys(Render(table, job)) ==> exists m :: m in table && KeyOf(m) == key
  {
    var r := Render(table, job);
    RenderedRows(table, job);
    forall key | key in Keys(r)
      ensures exists m :: m in table && KeyOf(m) == key
    {
      var k :| 0 <= k < |r| && Keys(r)[k] == key;
      assert r[k] in table;
    }
  }

  /** Every written key belongs to some row of the table. */
  lemma OnlyTableKeys(job: J.Job)
    ensures forall key :: key in RenderedKeys(job) ==> exists m :: m in Table && KeyOf(m) == key
  {
    KeysFromRows(Table, job);
  }

  /** Which rows are written depends only on which members hold their defaults, not on how the job was built. */
  lemma {:induction false} SameDefaultsSameRows(table: seq<Member>, a: J.Job, b: J.Job)
    requires forall f :: AtDefault(a, f) == AtDefault(b, f)
    ensures Render(table, a) == Render(table, b)
    decreases |table|
  {
    if table != [] {
      SameDefaultsSameRows(table[1..], a, b);
    }
  }

  /** Jobs that agree on which members are set render the same keys in the same order. */
  lemma SameDefaultsSameKeys(a: J.Job, b: J.Job)
    requires forall f :: AtDefault(a, f) == AtDefault(b, f)
    ensures RenderedKeys(a) == RenderedKeys(b)
  {
    SameDefaultsSameRows(Table, a, b);
  }

  /** Of the rows from `Environment` on, such a job renders only the steps. */
  lemma LowerRowsOfFourMemberJob(job: J.Job)
    requires job.steps.Some? && job.environment.None? && job.defaults.None?
    requires job.timeoutInMinutes == 0 && job.strategy.None? && job.env.None? && job.outputs.None?
    ensures Render(Table[4..], job) == [Table[6]]
  {
    var t := Table;
    assert Render(t[10..], job) == [] by { assert t[10..][1..] == t[11..]; }
    assert Render(t[9..], job) == [] by { assert t[9..][1..] == t[10..]; }
    assert Render(t[8..], job) == [] by { assert t[8..][1..] == t[9..]; }
    assert Render(t[7..], job) == [] by { assert t[7..][1..] == t[8..]; }
    assert Render(t[6..], job) == [t[6]] by { assert t[6..][1..] == t[7..]; }
    assert Render(t[5..], job) == [t[6]] by { assert t[5..][1..] == t[6..]; }
    assert t[4..][1..] == t[5..];
  }

  /** A job that sets exactly `runs-on`, `needs`, `if` and the steps writes those four keys in that order. */
  lemma KeysOfFourMemberJob(job: J.Job)
    requires job.runsOn.Some? && job.needs.Some? && job.condition.Some? && job.steps.Some?
    requires job.name.None? && job.environment.None? && job.defaults.None?
    requires job.timeoutInMinutes == 0 && job.strategy.None? && job.env.None? && job.outputs.None?
    ensures RenderedKeys(job) == [Alias("runs-on"), Alias("needs"), Alias("if"), Property("Steps")]
  {
    var t := Table;
    LowerRowsOfFourMemberJob(job);
    assert Render(t[3..], job) == [t[3], t[6]] by { assert t[3..][1..] == t[4..]; }
    assert Render(t[2..], job) == [t[2], t[3], t[6]] by { assert t[2..][1..] == t[3..]; }
    assert Render(t[1..], job) == [t[1], t[2], t[3], t[6]] by { assert t[1..][1..] == t[2..]; }
  }

  /** The tag job writes `runs-on`, `needs`, `if` and the steps, in that order, and nothing else. */
  lemma TagJobKeys(runsOn: string, dependsOn: string, path: string, token: string,
                   branch: string, newline: J.Newline)
    ensures RenderedKeys(J.TagJob(runsOn, dependsOn, path, token, branch, newline))
         == [Alias("runs-on"), Alias("needs"), Alias("if"), Property("Steps")]
  {
    KeysOfFourMemberJob(J.TagJob(runsOn, dependsOn, path, token, branch, newline));
  }
}
