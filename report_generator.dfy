/** The result grouping, the category descriptions, the generic lookups and the abnormal-result
    filters of the PDF report generator. Records are the values the analyzer returns; the
    generator calls `.get` on each of them and `.lower()` on the test name, so a value that is
    not a dict, or a test name that is not a string, raises (None here). */
module ReportGenerator {
  import opened Text
  import opened Data
  import opened Lookup
  import opened GeneratorKnowledge

  /** No category occurs twice. */
  predicate Distinct(order: seq<Category>) {
    forall p, q :: 0 <= p < q < |order| ==> order[p] != order[q]
  }

  /** The declaration order lists every category once. */
  lemma CategoriesWellFormed()
    ensures Distinct(Categories())
    ensures forall c: Category :: c in Categories()
  {
    forall c: Category
      ensures c in Categories()
    {
      match c
      case CompleteBloodCount => assert Categories()[0] == c;
      case InflammatoryMarkers => assert Categories()[1] == c;
      case IronStudies => assert Categories()[2] == c;
      case DiabetesProfile => assert Categories()[3] == c;
      case KidneyFunctionTest => assert Categories()[4] == c;
      case LipidProfile => assert Categories()[5] == c;
      case LiverFunctionTest => assert Categories()[6] == c;
      case UrineRoutineMicroscopy => assert Categories()[7] == c;
      case CalciumAndBoneHealth => assert Categories()[8] == c;
      case VitaminProfile => assert Categories()[9] == c;
      case ThyroidFunctionTest => assert Categories()[10] == c;
      case OtherTests => assert Categories()[11] == c;
    }
  }

  // ---------------------------------------------------------------------------------------
  // Grouping (`_group_results_by_category`)
  // ---------------------------------------------------------------------------------------

  /** `test.get('Test', '')` as a string: "" when absent; None when the record is not a dict
      or its test name is not a string (`.get` or `.lower()` raises). */
  function TestName(t: Json): (r: Option<string>)
    ensures r.Some? <==> t.JObj? && Get(t.fields, "Test", JStr("")).JStr?
    ensures t.JObj? && "Test" !in t.fields ==> r == Some("")
    ensures t.JObj? && "Test" in t.fields && r.Some? ==> t.fields["Test"] == JStr(r.value)
  {
    match t
    case JObj(d) => (match Get(d, "Test", JStr("")) case JStr(s) => Some(s) case _ => None)
    case _ => None
  }

  /** The category of a test name: that of the first mapping key occurring in it,
      case-insensitively, else Other Tests. */
  function CategoryFor(testName: string): (r: Category)
    ensures NoMatch(CategoryMapping(), testName) ==> r == OtherTests
    ensures forall j: nat :: FirstMatchIs(CategoryMapping(), testName, j) ==> r == CategoryMapping()[j].1
  {
    FirstMatchOr(CategoryMapping(), testName, OtherTests)
  }

  /** The group a record goes to, or None when reading its name raises. */
  function GroupKey(t: Json): (r: Option<Category>)
    ensures r.Some? <==> TestName(t).Some?
    ensures r.Some? ==> r.value == CategoryFor(TestName(t).value)
  {
    match TestName(t)
    case None => None
    case Some(name) => Some(CategoryFor(name))
  }

  /** Every record's group can be computed. */
  predicate Groupable(key: Json -> Option<Category>, data: seq<Json>) {
    forall i :: 0 <= i < |data| ==> key(data[i]).Some?
  }

  /** The records that `key` sends to group `c`, in input order. */
  function Members(key: Json -> Option<Category>, data: seq<Json>, c: Category): (r: seq<Json>)
    requires Groupable(key, data)
    ensures |r| <= |data|
    ensures forall x :: x in r ==> x in data && key(x) == Some(c)
    decreases |data|
  {
    if |data| == 0 then []
    else
      var init := data[..|data| - 1];
      var last := data[|data| - 1];
      assert forall i :: 0 <= i < |init| ==> init[i] == data[i];
      Members(key, init, c) + (if key(last) == Some(c) then [last] else [])
  }

  /** The `categories` dict after the pass: each category bound to its members. */
  function Buckets(key: Json -> Option<Category>, data: seq<Json>): (r: map<Category, seq<Json>>)
    requires Groupable(key, data)
    ensures forall k :: 0 <= k < |Categories()| ==> Categories()[k] in r
    ensures forall c, x :: c in r && x in r[c] ==> x in data && key(x) == Some(c)
  {
    map c | c in Categories() :: Members(key, data, c)
  }

  /** `{k: v for k, v in categories.items() if v}`: the non-empty groups, in the order of
      `order`. */
  function KeepNonEmpty(buckets: map<Category, seq<Json>>, order: seq<Category>): (r: seq<(Category, seq<Json>)>)
    requires forall k :: 0 <= k < |order| ==> order[k] in buckets
    ensures forall a :: 0 <= a < |r| ==> r[a].0 in order && r[a].0 in buckets && r[a].1 == buckets[r[a].0] && r[a].1 != []
  {
    if |order| == 0 then []
    else
      (if buckets[order[0]] != [] then [(order[0], buckets[order[0]])] else []) + KeepNonEmpty(buckets, order[1..])
  }

  /** What `_group_results_by_category` returns (each category standing for its name), or
      None when it raises. */
  function Grouping(data: seq<Json>): (r: Option<seq<(Category, seq<Json>)>>)
    ensures r.Some? <==> Groupable(GroupKey, data)
  {
    if Groupable(GroupKey, data) then Some(KeepNonEmpty(Buckets(GroupKey, data), Categories())) else None
  }

  /** The inner loop of lines 1125-1129: the mapping is searched in declaration order and the
      search stops at the first key occurring in the name. */
  method FindCategory(testName: string) returns (category: Category)
    ensures category == CategoryFor(testName)
  {
    var mapping := CategoryMapping();
    category := OtherTests;
    var j := 0;
    while j < |mapping|
      invariant 0 <= j <= |mapping|
      invariant category == OtherTests
      invariant forall k :: 0 <= k < j ==> !Matches(mapping[k].0, testName)
    {
      if Matches(mapping[j].0, testName) {
        assert FirstMatchIs(mapping, testName, j);
        category := mapping[j].1;
        return;
      }
      j := j + 1;
    }
  }

  /** The single forward pass of lines 1121-1131 and the final comprehension of line 1134. */
  method GroupResultsByCategory(data: seq<Json>) returns (r: Option<seq<(Category, seq<Json>)>>)
    ensures r == Grouping(data)
  {
    var categories: map<Category, seq<Json>> := map c | c in Categories() :: [];
    PassStart(GroupKey, categories);
    var i := 0;
    while i < |data|
      invariant 0 <= i <= |data|
      invariant Groupable(GroupKey, data[..i])
      invariant forall c :: c in categories && categories[c] == Members(GroupKey, data[..i], c)
    {
      var testName := TestName(data[i]);
      if testName.None? {
        assert !Groupable(GroupKey, data) by { assert !GroupKey(data[i]).Some?; }
        return None;
      }
      var category := FindCategory(testName.value);
      var updated := categories[category := categories[category] + [data[i]]];
      PassStep(GroupKey, categories, updated, data, i, category);
      categories := updated;
      i := i + 1;
    }
    assert data[..i] == data;
    PassDone(GroupKey, categories, data);
    r := Some(KeepNonEmpty(categories, Categories()));
  }

  /** Before the pass every category is bound to the empty list (line 1121). */
  lemma PassStart(key: Json -> Option<Category>, categories: map<Category, seq<Json>>)
    requires categories == map c | c in Categories() :: []
    ensures forall c :: c in categories && categories[c] == Members(key, [], c)
  {
    CategoriesWellFormed();
  }

  /** One iteration of the pass appends the record to its own group's list and to no other. */
  lemma PassStep(key: Json -> Option<Category>, categories: map<Category, seq<Json>>, updated: map<Category, seq<Json>>,
                 data: seq<Json>, i: nat, category: Category)
    requires i < |data| && Groupable(key, data[..i]) && key(data[i]) == Some(category)
    requires forall c :: c in categories && categories[c] == Members(key, data[..i], c)
    requires updated == categories[category := categories[category] + [data[i]]]
    ensures Groupable(key, data[..i + 1])
    ensures forall c :: c in updated && updated[c] == Members(key, data[..i + 1], c)
  {
    forall c
      ensures Members(key, data[..i + 1], c) ==
        Members(key, data[..i], c) + (if c == category then [data[i]] else [])
    {
      MembersSnoc(key, data, i, c);
    }
  }

  /** After the pass the dict holds exactly the buckets of the whole input. */
  lemma PassDone(key: Json -> Option<Category>, categories: map<Category, seq<Json>>, data: seq<Json>)
    requires Groupable(key, data)
    requires forall c :: c in categories && categories[c] == Members(key, data, c)
    ensures KeepNonEmpty(categories, Categories()) == KeepNonEmpty(Buckets(key, data), Categories())
  {
    KeepNonEmptyAgree(categories, Buckets(key, data), Categories());
  }

  /** One more record extends exactly the members of its own group. */
  lemma MembersSnoc(key: Json -> Option<Category>, data: seq<Json>, i: nat, c: Category)
    requires i < |data| && Groupable(key, data[..i]) && key(data[i]).Some?
    ensures Groupable(key, data[..i + 1])
    ensures Members(key, data[..i + 1], c) ==
      Members(key, data[..i], c) + (if key(data[i]) == Some(c) then [data[i]] else [])
  {
    assert data[..i + 1][..i] == data[..i];
    assert forall k :: 0 <= k < i ==> data[..i + 1][k] == data[..i][k];
  }

  /** The comprehension only reads the lists of the categories it lists. */
  lemma {:induction false} KeepNonEmptyAgree(b1: map<Category, seq<Json>>, b2: map<Category, seq<Json>>, order: seq<Category>)
    requires forall k :: 0 <= k < |order| ==> order[k] in b1 && order[k] in b2 && b1[order[k]] == b2[order[k]]
    ensures KeepNonEmpty(b1, order) == KeepNonEmpty(b2, order)
    decreases |order|
  {
    if |order| > 0 {
      KeepNonEmptyAgree(b1, b2, order[1..]);
    }
  }

  /** Total number of records over a list of groups. */
  function TotalSize(groups: seq<(Category, seq<Json>)>): nat {
    if |groups| == 0 then 0 else |groups[0].1| + TotalSize(groups[1..])
  }

  /** Total number of members over the given categories. */
  function SumMembers(key: Json -> Option<Category>, data: seq<Json>, order: seq<Category>): nat
    requires Groupable(key, data)
  {
    if |order| == 0 then 0 else |Members(key, data, order[0])| + SumMembers(key, data, order[1..])
  }

  /** How often `c` occurs in `order`. */
  function Occurrences(order: seq<Category>, c: Category): nat {
    if |order| == 0 then 0 else (if order[0] == c then 1 else 0) + Occurrences(order[1..], c)
  }

  lemma {:induction false} TotalSizeAppend(a: seq<(Category, seq<Json>)>, b: seq<(Category, seq<Json>)>)
    ensures TotalSize(a + b) == TotalSize(a) + TotalSize(b)
    decreases |a|
  {
    if |a| > 0 {
      assert (a + b)[0] == a[0];
      assert (a + b)[1..] == a[1..] + b;
      TotalSizeAppend(a[1..], b);
      assert TotalSize(a + b) == |a[0].1| + TotalSize(a[1..] + b);
    } else {
      assert a + b == b;
    }
  }

  lemma {:induction false} KeepNonEmptySize(key: Json -> Option<Category>, data: seq<Json>, order: seq<Category>)
    requires Groupable(key, data)
    requires forall k :: 0 <= k < |order| ==> order[k] in Categories()
    ensures TotalSize(KeepNonEmpty(Buckets(key, data), order)) == SumMembers(key, data, order)
    decreases |order|
  {
    if |order| > 0 {
      KeepNonEmptySize(key, data, order[1..]);
      var m := Members(key, data, order[0]);
      var head: seq<(Category, seq<Json>)> := if m != [] then [(order[0], m)] else [];
      assert KeepNonEmpty(Buckets(key, data), order) == head + KeepNonEmpty(Buckets(key, data), order[1..]);
      TotalSizeAppend(head, KeepNonEmpty(Buckets(key, data), order[1..]));
    }
  }

  /** Adding one record to the input adds, summed over `order`, one member per occurrence of
      its group there. */
  lemma {:induction false} SumMembersStep(key: Json -> Option<Category>, data: seq<Json>, order: seq<Category>)
    requires |data| > 0 && Groupable(key, data)
    ensures Groupable(key, data[..|data| - 1])
    ensures SumMembers(key, data, order) ==
      SumMembers(key, data[..|data| - 1], order) + Occurrences(order, key(data[|data| - 1]).value)
    decreases |order|
  {
    assert forall i :: 0 <= i < |data| - 1 ==> data[..|data| - 1][i] == data[i];
    if |order| > 0 {
      SumMembersStep(key, data, order[1..]);
    }
  }

  lemma {:induction false} OccursNever(order: seq<Category>, c: Category)
    requires c !in order
    ensures Occurrences(order, c) == 0
    decreases |order|
  {
    if |order| > 0 {
      OccursNever(order[1..], c);
    }
  }

  lemma {:induction false} OccursOnce(order: seq<Category>, c: Category)
    requires Distinct(order) && c in order
    ensures Occurrences(order, c) == 1
    decreases |order|
  {
    if order[0] == c {
      assert c !in order[1..];
      OccursNever(order[1..], c);
    } else {
      OccursOnce(order[1..], c);
    }
  }

  lemma {:induction false} SumMembersNone(key: Json -> Option<Category>, data: seq<Json>, order: seq<Category>)
    requires |data| == 0
    ensures SumMembers(key, data, order) == 0
    decreases |order|
  {
    if |order| > 0 {
      SumMembersNone(key, data, order[1..]);
    }
  }

  lemma {:induction false} SumMembersAll(key: Json -> Option<Category>, data: seq<Json>)
    requires Groupable(key, data)
    ensures SumMembers(key, data, Categories()) == |data|
    decreases |data|
  {
    if |data| > 0 {
      var init := data[..|data| - 1];
      var c := key(data[|data| - 1]).value;
      SumMembersStep(key, data, Categories());
      SumMembersAll(key, init);
      CategoriesWellFormed();
      assert c in Categories();
      OccursOnce(Categories(), c);
      assert SumMembers(key, data, Categories()) == |init| + 1;
    } else {
      SumMembersNone(key, data, Categories());
    }
  }

  /** Every record lands in exactly one group: the group sizes add up to the input length. */
  lemma GroupsPartition(data: seq<Json>)
    requires Groupable(GroupKey, data)
    ensures TotalSize(Grouping(data).value) == |data|
  {
    CategoriesWellFormed();
    KeepNonEmptySize(GroupKey, data, Categories());
    SumMembersAll(GroupKey, data);
  }

  /** Group lists keep input order: grouping distributes over concatenation. */
  lemma {:induction false} MembersAppend(key: Json -> Option<Category>, a: seq<Json>, b: seq<Json>, c: Category)
    requires Groupable(key, a + b)
    ensures Groupable(key, a) && Groupable(key, b)
    ensures Members(key, a + b, c) == Members(key, a, c) + Members(key, b, c)
    decreases |b|
  {
    GroupableSplit(key, a, b);
    if |b| == 0 {
      assert a + b == a;
    } else {
      var init := b[..|b| - 1];
      var last := b[|b| - 1];
      assert (a + b)[..|a + b| - 1] == a + init;
      assert (a + b)[|a + b| - 1] == last;
      MembersAppend(key, a, init, c);
      var tail := if key(last) == Some(c) then [last] else [];
      assert Members(key, a + b, c) == Members(key, a + init, c) + tail;
      assert Members(key, b, c) == Members(key, init, c) + tail;
    }
  }

  lemma GroupableSplit(key: Json -> Option<Category>, a: seq<Json>, b: seq<Json>)
    requires Groupable(key, a + b)
    ensures Groupable(key, a) && Groupable(key, b)
  {
    forall i | 0 <= i < |a|
      ensures key(a[i]).Some?
    {
      assert (a + b)[i] == a[i];
    }
    forall i | 0 <= i < |b|
      ensures key(b[i]).Some?
    {
      assert (a + b)[|a| + i] == b[i];
    }
  }

  /** A record is a member of the group its key names. */
  lemma {:induction false} MemberOfOwnGroup(key: Json -> Option<Category>, data: seq<Json>, i: nat)
    requires Groupable(key, data) && i < |data|
    ensures data[i] in Members(key, data, key(data[i]).value)
    decreases |data|
  {
    if i < |data| - 1 {
      var init := data[..|data| - 1];
      assert forall k :: 0 <= k < |init| ==> init[k] == data[k];
      MemberOfOwnGroup(key, init, i);
    }
  }

  /** `x` comes before `y` in `order`. */
  predicate Before(order: seq<Category>, x: Category, y: Category) {
    exists p, q :: 0 <= p < q < |order| && order[p] == x && order[q] == y
  }

  lemma {:induction false} KeepNonEmptyOrder(buckets: map<Category, seq<Json>>, order: seq<Category>)
    requires forall k :: 0 <= k < |order| ==> order[k] in buckets
    ensures forall a, b :: 0 <= a < b < |KeepNonEmpty(buckets, order)| ==>
      Before(order, KeepNonEmpty(buckets, order)[a].0, KeepNonEmpty(buckets, order)[b].0)
    decreases |order|
  {
    if |order| > 0 {
      var r := KeepNonEmpty(buckets, order);
      var tail := order[1..];
      var rest := KeepNonEmpty(buckets, tail);
      KeepNonEmptyOrder(buckets, tail);
      forall a, b | 0 <= a < b < |r|
        ensures Before(order, r[a].0, r[b].0)
      {
        var shift := if buckets[order[0]] != [] then 1 else 0;
        assert r == (if shift == 1 then [(order[0], buckets[order[0]])] else []) + rest;
        assert r[b] == rest[b - shift];
        assert rest[b - shift].0 in tail;
        var q :| 0 <= q < |tail| && tail[q] == r[b].0;
        if shift == 1 && a == 0 {
          assert order[0] == r[a].0 && order[q + 1] == r[b].0;
        } else {
          assert r[a] == rest[a - shift];
          assert Before(tail, rest[a - shift].0, rest[b - shift].0);
          var p', q' :| 0 <= p' < q' < |tail| && tail[p'] == rest[a - shift].0 && tail[q'] == rest[b - shift].0;
          assert order[p' + 1] == r[a].0 && order[q' + 1] == r[b].0;
        }
      }
    }
  }

  lemma {:induction false} KeepNonEmptyComplete(buckets: map<Category, seq<Json>>, order: seq<Category>, c: Category)
    requires forall k :: 0 <= k < |order| ==> order[k] in buckets
    requires c in order && buckets[c] != []
    ensures exists a :: 0 <= a < |KeepNonEmpty(buckets, order)| && KeepNonEmpty(buckets, order)[a].0 == c
    decreases |order|
  {
    var r := KeepNonEmpty(buckets, order);
    var head: seq<(Category, seq<Json>)> := if buckets[order[0]] != [] then [(order[0], buckets[order[0]])] else [];
    assert r == head + KeepNonEmpty(buckets, order[1..]);
    if order[0] == c {
      assert r[0].0 == c;
    } else {
      KeepNonEmptyComplete(buckets, order[1..], c);
      var rest := KeepNonEmpty(buckets, order[1..]);
      var a :| 0 <= a < |rest| && rest[a].0 == c;
      assert r[|head| + a].0 == c;
    }
  }

  /** The groups are non-empty and hold only records whose name maps to their category. */
  lemma GroupsHoldMembers(data: seq<Json>)
    requires Groupable(GroupKey, data)
    ensures var r := Grouping(data).value;
      forall a :: 0 <= a < |r| ==> r[a].1 != [] && forall x :: x in r[a].1 ==> x in data && GroupKey(x) == Some(r[a].0)
  {
    var b := Buckets(GroupKey, data);
    var r := KeepNonEmpty(b, Categories());
    assert Grouping(data).value == r;
    forall a | 0 <= a < |r|
      ensures r[a].1 != [] && forall x :: x in r[a].1 ==> x in data && GroupKey(x) == Some(r[a].0)
    {
      var c := r[a].0;
      assert r[a].1 == b[c];
      assert b[c] == Members(GroupKey, data, c);
    }
  }

  /** The groups come in the declaration order of the twelve categories, whatever order the
      records arrive in. */
  lemma GroupsOrdered(data: seq<Json>)
    requires Groupable(GroupKey, data)
    ensures var r := Grouping(data).value;
      forall a, b :: 0 <= a < b < |r| ==> Before(Categories(), r[a].0, r[b].0)
  {
    var b := Buckets(GroupKey, data);
    assert Grouping(data).value == KeepNonEmpty(b, Categories());
    KeepNonEmptyOrder(b, Categories());
  }

  /** Every record is in the group its name maps to. */
  lemma RecordsGrouped(data: seq<Json>)
    requires Groupable(GroupKey, data)
    ensures var r := Grouping(data).value;
      forall i :: 0 <= i < |data| ==> exists a :: 0 <= a < |r| && Some(r[a].0) == GroupKey(data[i]) && data[i] in r[a].1
  {
    var b := Buckets(GroupKey, data);
    var r := KeepNonEmpty(b, Categories());
    assert Grouping(data).value == r;
    CategoriesWellFormed();
    forall i | 0 <= i < |data|
      ensures exists a :: 0 <= a < |r| && Some(r[a].0) == GroupKey(data[i]) && data[i] in r[a].1
    {
      var c := GroupKey(data[i]).value;
      MemberOfOwnGroup(GroupKey, data, i);
      assert b[c] == Members(GroupKey, data, c);
      KeepNonEmptyComplete(b, Categories(), c);
      var a :| 0 <= a < |r| && r[a].0 == c;
      assert r[a].1 == b[c];
      assert data[i] in r[a].1;
    }
  }

  /** A record is in no group but its own. */
  lemma RecordGroupIsOwn(data: seq<Json>)
    requires Groupable(GroupKey, data)
    ensures var r := Grouping(data).value;
      forall i, a :: 0 <= i < |data| && 0 <= a < |r| && data[i] in r[a].1 ==> Some(r[a].0) == GroupKey(data[i])
  {
    GroupsHoldMembers(data);
  }

  /** The record's own Category field plays no part: only the test name decides. */
  lemma CategoryFieldIgnored(d: Record, v: Json)
    ensures GroupKey(JObj(d["Category" := v])) == GroupKey(JObj(d))
  {
    assert Get(d["Category" := v], "Test", JStr("")) == Get(d, "Test", JStr(""));
  }

  /** First match wins: "Hemoglobin A1c (HbA1c)" holds both the Hemoglobin key and the HbA1c
      key, and the earlier Hemoglobin key files it under the Complete Blood Count rather than
      the Diabetes Profile. */
  lemma GlycatedHemoglobinGroup()
    ensures Matches(CategoryMapping()[10].0, "Hemoglobin A1c (HbA1c)")
    ensures CategoryMapping()[10].1 == DiabetesProfile
    ensures CategoryFor("Hemoglobin A1c (HbA1c)") == CompleteBloodCount
  {
    var m := CategoryMapping();
    var name := "Hemoglobin A1c (HbA1c)";
    assert Lower(name) == "hemoglobin a1c (hba1c)";
    assert OccursAt(Lower(m[0].0), Lower(name), 0);
    MatchesAt(m[0].0, name, 0);
    assert FirstMatchIs(m, name, 0);
    assert OccursAt(Lower(m[10].0), Lower(name), 16);
    MatchesAt(m[10].0, name, 16);
  }

  // ---------------------------------------------------------------------------------------
  // Lookups
  // ---------------------------------------------------------------------------------------

  /** The description table is keyed by the twelve category names, in declaration order,
      and no key occurs twice. */
  lemma DescriptionTableKeys()
    ensures |DescriptionTable()| == |Categories()|
    ensures forall j :: 0 <= j < |DescriptionTable()| ==> DescriptionTable()[j].0 == CategoryName(Categories()[j])
    ensures forall p, q :: 0 <= p < q < |DescriptionTable()| ==> DescriptionTable()[p].0 != DescriptionTable()[q].0
  {
  }

  /** `_get_category_description`: the description of a category named exactly, "" for any
      other string. */
  function CategoryDescription(category: string): (r: string)
    ensures (forall c: Category :: CategoryName(c) != category) ==> r == ""
    ensures forall j :: 0 <= j < |Categories()| && CategoryName(Categories()[j]) == category ==>
      r == Render(DescriptionTable()[j].1)
  {
    DescriptionTableKeys();
    match ExactFind(DescriptionTable(), category)
    case None => ""
    case Some(j) => Render(DescriptionTable()[j].1)
  }

  /** `_get_generic_interpretation`: the text of the first key occurring in the name, else
      the fixed outside-the-range sentence; never None. */
  function GenericInterpretation(testName: string): (r: string)
    ensures NoMatch(InterpretationTable(), testName) ==> r == Render(OutsideRangeNote)
    ensures forall j: nat :: FirstMatchIs(InterpretationTable(), testName, j) ==> r == Render(InterpretationTable()[j].1)
  {
    Render(FirstMatchOr(InterpretationTable(), testName, OutsideRangeNote))
  }

  /** `_get_specific_recommendations`: the five steps of the first key occurring in the name,
      else None. */
  function SpecificRecommendations(testName: string): (r: Option<seq<string>>)
    ensures r.None? <==> NoMatch(RecommendationTable(), testName)
    ensures forall j: nat :: FirstMatchIs(RecommendationTable(), testName, j) ==> r == Some(RenderAll(Render, RecommendationTable()[j].1))
    ensures r.Some? ==> |r.value| == 5
  {
    match FirstMatchValue(RecommendationTable(), testName)
    case None => None
    case Some(steps) => Some(RenderAll(Render, steps))
  }

  // ---------------------------------------------------------------------------------------
  // Abnormal-result filters (lines 814 and 961)
  // ---------------------------------------------------------------------------------------

  /** `test.get('Status', '') != 'Normal'`: anything but the exact string "Normal", a missing
      Status included. */
  predicate IsAbnormal(d: Record) {
    !FieldIs(d, "Status", "Normal")
  }

  predicate AllRecords(data: seq<Json>) {
    forall i :: 0 <= i < |data| ==> data[i].JObj?
  }

  /** The abnormal records, in input order. */
  function Abnormals(data: seq<Json>): (r: seq<Json>)
    requires AllRecords(data)
    ensures |r| <= |data|
    ensures forall x :: x in r <==> x in data && x.JObj? && IsAbnormal(x.fields)
    ensures forall x :: x in data && x.JObj? && "Status" !in x.fields ==> x in r
    decreases |data|
  {
    if |data| == 0 then []
    else (if IsAbnormal(data[0].fields) then [data[0]] else []) + Abnormals(data[1..])
  }

  /** `[test for test in structured_data if test.get('Status', '') != 'Normal']`, or None
      when an element is not a dict. */
  function AbnormalResults(data: seq<Json>): (r: Option<seq<Json>>)
    ensures r.Some? <==> AllRecords(data)
    ensures r.Some? ==> |r.value| <= |data|
  {
    if AllRecords(data) then Some(Abnormals(data)) else None
  }

  /** The filter keeps input order: it distributes over concatenation. */
  lemma {:induction false} AbnormalsAppend(a: seq<Json>, b: seq<Json>)
    requires AllRecords(a + b)
    ensures AllRecords(a) && AllRecords(b)
    ensures Abnormals(a + b) == Abnormals(a) + Abnormals(b)
    decreases |a|
  {
    assert forall i :: 0 <= i < |a| ==> (a + b)[i] == a[i];
    assert forall i :: 0 <= i < |b| ==> (a + b)[|a| + i] == b[i];
    if |a| == 0 {
      assert a + b == b;
    } else {
      assert (a + b)[1..] == a[1..] + b;
      AbnormalsAppend(a[1..], b);
    }
  }

  /** Exactly the normal records are dropped: the kept and the dropped ones add up. */
  lemma {:induction false} AbnormalsCount(data: seq<Json>)
    requires AllRecords(data)
    ensures |Abnormals(data)| + |Normals(data)| == |data|
    decreases |data|
  {
    if |data| > 0 {
      AbnormalsCount(data[1..]);
    }
  }

  /** The records the filter drops. */
  function Normals(data: seq<Json>): (r: seq<Json>)
    requires AllRecords(data)
    ensures forall x :: x in r ==> x in data && x.JObj? && FieldIs(x.fields, "Status", "Normal")
    decreases |data|
  {
    if |data| == 0 then []
    else (if IsAbnormal(data[0].fields) then [] else [data[0]]) + Normals(data[1..])
  }
}
