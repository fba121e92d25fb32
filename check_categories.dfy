/**
 * The duplicate-category report (`dev/check_categories.ts`): read the credentials from the
 * `.env` settings, group the fetched categories by name and report every name used more than once.
 */
module CheckCategories {
  import opened Common
  import opened Catalog
  import opened EnvFile

  /** The setting under `key`, or the empty text when it is missing. */
  function Setting(env: map<string, string>, key: string): string {
    if key in env then env[key] else ""
  }

  /** The script goes on only when both the URL and the anonymous key are set and non-empty. */
  function Credentials(env: map<string, string>): (r: Result<(string, string)>)
    ensures r.Ok? <==> "VITE_SUPABASE_URL" in env && env["VITE_SUPABASE_URL"] != "" &&
                       "VITE_SUPABASE_ANON_KEY" in env && env["VITE_SUPABASE_ANON_KEY"] != ""
    ensures r.Ok? ==> r.value == (env["VITE_SUPABASE_URL"], env["VITE_SUPABASE_ANON_KEY"])
    ensures r.Err? ==> r.message == "Missing Supabase credentials in .env"
  {
    var url := Setting(env, "VITE_SUPABASE_URL");
    var key := Setting(env, "VITE_SUPABASE_ANON_KEY");
    if url == "" || key == "" then Err("Missing Supabase credentials in .env") else Ok((url, key))
  }

  /** The rows' names, in order. */
  function NamesOf(cats: seq<CategoryRow>): seq<string> {
    Map(cats, (c: CategoryRow) => c.name)
  }

  /** The rows named `name`, in fetch order. */
  function Members(cats: seq<CategoryRow>, name: string): seq<CategoryRow> {
    Filter(cats, (c: CategoryRow) => c.name == name)
  }

  /** The names used by more than one row, in order of first use: the names the report lists. */
  function DuplicateNames(cats: seq<CategoryRow>): seq<string> {
    Filter(Dedup(NamesOf(cats)), (n: string) => |Members(cats, n)| > 1)
  }

  /** `order` and `groups` are what the loop has built from the rows in `prefix`. */
  ghost predicate Grouped(prefix: seq<CategoryRow>, order: seq<string>, groups: map<string, seq<CategoryRow>>) {
    order == Dedup(NamesOf(prefix)) &&
    (forall n :: n in groups <==> n in NamesOf(prefix)) &&
    (forall n :: n in groups ==> groups[n] == Members(prefix, n))
  }

  /** `if (!nameMap.has(name)) nameMap.set(name, [])`. */
  function Opened(groups: map<string, seq<CategoryRow>>, name: string): (r: map<string, seq<CategoryRow>>)
    ensures name in r
  {
    if name in groups then groups else groups[name := []]
  }

  /** `nameMap.get(name).push(cat)` after opening the group. */
  function Joined(groups: map<string, seq<CategoryRow>>, cat: CategoryRow): map<string, seq<CategoryRow>> {
    var g := Opened(groups, cat.name);
    g[cat.name := g[cat.name] + [cat]]
  }

  lemma MembersSnoc(prefix: seq<CategoryRow>, cat: CategoryRow)
    ensures forall n :: Members(prefix + [cat], n) == Members(prefix, n) + (if cat.name == n then [cat] else [])
  {
    forall n ensures Members(prefix + [cat], n) == Members(prefix, n) + (if cat.name == n then [cat] else []) {
      FilterAppend(prefix, [cat], (c: CategoryRow) => c.name == n);
    }
  }

  /** One more row: a new name goes to the end of the first-use order. */
  lemma OrderStep(prefix: seq<CategoryRow>, cat: CategoryRow, order: seq<string>)
    requires order == Dedup(NamesOf(prefix))
    ensures Dedup(NamesOf(prefix + [cat])) == if cat.name in NamesOf(prefix) then order else order + [cat.name]
  {
    assert NamesOf(prefix + [cat]) == NamesOf(prefix) + [cat.name];
    DedupSnoc(NamesOf(prefix), cat.name);
  }

  /** One more row: the group keys gain its name. */
  lemma KeysStep(prefix: seq<CategoryRow>, cat: CategoryRow, groups: map<string, seq<CategoryRow>>)
    requires forall n :: n in groups <==> n in NamesOf(prefix)
    ensures forall n :: n in Joined(groups, cat) <==> n in NamesOf(prefix + [cat])
  {
    assert NamesOf(prefix + [cat]) == NamesOf(prefix) + [cat.name];
  }

  /** One more row: it joins its name's group, which starts empty when the name is new. */
  lemma MembersStep(prefix: seq<CategoryRow>, cat: CategoryRow, groups: map<string, seq<CategoryRow>>)
    requires forall n :: n in groups <==> n in NamesOf(prefix)
    requires forall n :: n in groups ==> groups[n] == Members(prefix, n)
    ensures forall n :: n in Joined(groups, cat) ==> Joined(groups, cat)[n] == Members(prefix + [cat], n)
  {
    MembersSnoc(prefix, cat);
    if cat.name !in groups {
      forall i | 0 <= i < |prefix| ensures prefix[i].name != cat.name {
        assert NamesOf(prefix)[i] == prefix[i].name;
      }
      FilterNone(prefix, (c: CategoryRow) => c.name == cat.name);
      assert [] + [cat] == [cat];
    }
  }

  /** One more row: a new name opens a group at the end of the order, and the row joins its name's group. */
  lemma GroupStep(prefix: seq<CategoryRow>, cat: CategoryRow, order: seq<string>, groups: map<string, seq<CategoryRow>>)
    requires Grouped(prefix, order, groups)
    ensures Grouped(prefix + [cat], if cat.name in groups then order else order + [cat.name], Joined(groups, cat))
  {
    OrderStep(prefix, cat, order);
    KeysStep(prefix, cat, groups);
    MembersStep(prefix, cat, groups);
  }

  /** `GroupStep` for the row at `i` of `cats`. */
  lemma GroupStepAt(cats: seq<CategoryRow>, i: nat, order: seq<string>, groups: map<string, seq<CategoryRow>>)
    requires i < |cats| && Grouped(cats[..i], order, groups)
    ensures Grouped(cats[..i + 1], if cats[i].name in groups then order else order + [cats[i].name], Joined(groups, cats[i]))
  {
    assert cats[..i + 1] == cats[..i] + [cats[i]];
    GroupStep(cats[..i], cats[i], order, groups);
  }

  /** After the last row: the group keys are exactly the names in the order. */
  lemma GroupedKeys(cats: seq<CategoryRow>, order: seq<string>, groups: map<string, seq<CategoryRow>>)
    requires Grouped(cats, order, groups)
    ensures forall n :: n in groups <==> n in order
  {
    DedupSpec(NamesOf(cats));
  }

  /** The body of the `forEach`: open the row's group when its name is new, then push the row. */
  method AddRow(order0: seq<string>, groups0: map<string, seq<CategoryRow>>, cat: CategoryRow)
    returns (order: seq<string>, groups: map<string, seq<CategoryRow>>)
    ensures order == if cat.name in groups0 then order0 else order0 + [cat.name]
    ensures groups == Joined(groups0, cat)
  {
    order, groups := order0, groups0;
    if cat.name !in groups {
      groups := groups[cat.name := []];
      order := order + [cat.name];
    }
    groups := groups[cat.name := groups[cat.name] + [cat]];
  }

  /** The `forEach` that fills `nameMap`: one group per name, keys in first-use order. */
  method GroupByName(cats: seq<CategoryRow>) returns (order: seq<string>, groups: map<string, seq<CategoryRow>>)
    ensures order == Dedup(NamesOf(cats))
    ensures forall n :: n in groups <==> n in order
    ensures forall n :: n in groups ==> groups[n] == Members(cats, n)
  {
    order := [];
    groups := map[];
    for i := 0 to |cats|
      invariant Grouped(cats[..i], order, groups)
    {
      GroupStepAt(cats, i, order, groups);
      order, groups := AddRow(order, groups, cats[i]);
    }
    assert cats[..|cats|] == cats;
    GroupedKeys(cats, order, groups);
  }

  /** One more name: it is reported when its group has more than one member. */
  lemma ReportStep(order: seq<string>, groups: map<string, seq<CategoryRow>>, i: nat)
    requires i < |order|
    ensures var big := (n: string) => n in groups && |groups[n]| > 1;
      Filter(order[..i + 1], big) == Filter(order[..i], big) + (if big(order[i]) then [order[i]] else [])
  {
    var big := (n: string) => n in groups && |groups[n]| > 1;
    assert order[..i + 1] == order[..i] + [order[i]];
    FilterAppend(order[..i], [order[i]], big);
  }

  /** The `nameMap.forEach` that counts and lists the groups with more than one member. */
  method CountDuplicates(order: seq<string>, groups: map<string, seq<CategoryRow>>) returns (dupCount: nat, reported: seq<string>)
    requires forall n :: n in order ==> n in groups
    ensures reported == Filter(order, (n: string) => n in groups && |groups[n]| > 1)
    ensures dupCount == |reported|
  {
    dupCount := 0;
    reported := [];
    for i := 0 to |order|
      invariant reported == Filter(order[..i], (n: string) => n in groups && |groups[n]| > 1)
      invariant dupCount == |reported|
    {
      ReportStep(order, groups, i);
      if |groups[order[i]]| > 1 {
        dupCount := dupCount + 1;
        reported := reported + [order[i]];
      }
    }
    assert order[..|order|] == order;
  }

  /** `checkCategories` once the rows are fetched: the groups reported, their count, and whether "No duplicates" is printed. */
  method CheckCategories(cats: seq<CategoryRow>) returns (dupCount: nat, reported: seq<string>, noDuplicatesMessage: bool)
    ensures reported == DuplicateNames(cats) && dupCount == |reported|
    ensures noDuplicatesMessage <==> dupCount == 0
    ensures noDuplicatesMessage <==> NoDup(NamesOf(cats))
  {
    var order, groups := GroupByName(cats);
    dupCount, reported := CountDuplicates(order, groups);
    forall i | 0 <= i < |order|
      ensures (order[i] in groups && |groups[order[i]]| > 1) == (|Members(cats, order[i])| > 1)
    {
      assert order[i] in order;
    }
    FilterCongruent(order, (n: string) => n in groups && |groups[n]| > 1, (n: string) => |Members(cats, n)| > 1);
    noDuplicatesMessage := dupCount == 0;
    NoDuplicatesIff(cats);
  }

  /** Without repeated names every group has at most one member. */
  lemma {:induction false} SingleMembers(cats: seq<CategoryRow>, name: string)
    requires NoDup(NamesOf(cats))
    ensures |Members(cats, name)| <= 1
  {
    if |cats| > 0 {
      var t := cats[1..];
      assert NoDup(NamesOf(t)) by {
        forall i, j | 0 <= i < j < |t| ensures NamesOf(t)[i] != NamesOf(t)[j] {
          assert NamesOf(cats)[i + 1] == t[i].name && NamesOf(cats)[j + 1] == t[j].name;
        }
      }
      SingleMembers(t, name);
      if cats[0].name == name {
        forall i | 0 <= i < |t| ensures t[i].name != name {
          assert NamesOf(cats)[i + 1] == t[i].name;
        }
        FilterNone(t, (c: CategoryRow) => c.name == name);
      }
    }
  }

  /** No group is reported exactly when no two categories share a name. */
  lemma NoDuplicatesIff(cats: seq<CategoryRow>)
    ensures |DuplicateNames(cats)| == 0 <==> NoDup(NamesOf(cats))
  {
    var d := Dedup(NamesOf(cats));
    var big := (n: string) => |Members(cats, n)| > 1;
    if NoDup(NamesOf(cats)) {
      forall i | 0 <= i < |d| ensures !big(d[i]) {
        SingleMembers(cats, d[i]);
      }
      FilterNone(d, big);
    } else {
      var i, j :| 0 <= i < j < |cats| && NamesOf(cats)[i] == NamesOf(cats)[j];
      var n := cats[i].name;
      FilterAtLeastTwo(cats, (c: CategoryRow) => c.name == n, i, j);
      DedupSpec(NamesOf(cats));
      assert NamesOf(cats)[i] == n;
      assert n in d;
      assert big(n);
      assert n in DuplicateNames(cats);
    }
  }
}
