/** The taxonomy plan of pilot_with_pdf/run_pdf_extract_after_analysis.py:
    `load_latest_taxonomy`, the module-level `TAXONOMY_CATEGORIES` and
    `SCHEMA_FIELDS` derived from it, and the few-shot block they are printed
    into. */
module AfterAnalysis {
  import opened Wrappers
  import opened Text
  import opened Json
  import Taxonomy

  const DefaultSchemaFields: seq<string> :=
    ["policy_name", "category", "description", "implementing_body", "target_sector", "funding_amount"]

  function Strings(xs: seq<string>): (js: seq<Json>)
    ensures |js| == |xs| && forall i :: 0 <= i < |xs| ==> js[i] == JStr(xs[i])
  {
    seq(|xs|, i requires 0 <= i < |xs| => JStr(xs[i]))
  }

  /** `{"category": c, "definition": ""}` for every label, in order. */
  function DefaultEntries(labels: seq<string>): (es: seq<Json>)
    ensures |es| == |labels|
    ensures forall i :: 0 <= i < |labels| ==>
      es[i] == JObject(map["category" := JStr(labels[i]), "definition" := JStr("")])
  {
    seq(|labels|, i requires 0 <= i < |labels| =>
      JObject(map["category" := JStr(labels[i]), "definition" := JStr("")]))
  }

  /** The plan used when no plan file is found or it cannot be loaded. */
  function DefaultPlan(): Json {
    JObject(map["taxonomy" := JArray(DefaultEntries(Taxonomy.Labels)),
                "schema_fields" := JArray(Strings(DefaultSchemaFields))])
  }

  /** `load_latest_taxonomy()`. The file lookup is a parameter: `None` when
      `taxonomy_plan_recent.json` does not exist, otherwise what reading and
      `json.load` gave (`Err` when either raised). A loaded document is
      returned as it is, whatever its shape. */
  function LoadLatestTaxonomy(found: Option<Result<Json>>): Json {
    match found
    case None => DefaultPlan()
    case Some(Err(_)) => DefaultPlan()
    case Some(Ok(data)) => data
  }

  /** Python's name for the type of a decoded value. */
  function TypeName(v: Json): string {
    match v
    case JNull => "NoneType"
    case JBool(_) => "bool"
    case JInt(_) => "int"
    case JFloat(_) => "float"
    case JStr(_) => "str"
    case JArray(_) => "list"
    case JObject(_) => "dict"
  }

  function NoGet(v: Json): string {
    "'" + TypeName(v) + "' object has no attribute 'get'"
  }

  /** `v.get(key, default)`; only a dict has `get`. */
  function Get(v: Json, key: string, default: Json): Result<Json> {
    match v
    case JObject(fields) => Ok(if key in fields then fields[key] else default)
    case _ => Err(NoGet(v))
  }

  /** `[t.get("category") for t in entries]` over a list. */
  function CategoriesOfItems(items: seq<Json>): Result<seq<Json>> {
    if items == [] then Ok([])
    else match items[0]
      case JObject(fields) =>
        (match CategoriesOfItems(items[1..])
         case Err(e) => Err(e)
         case Ok(rest) => Ok([if "category" in fields then fields["category"] else JNull] + rest))
      case _ => Err(NoGet(items[0]))
  }

  /** `[t.get("category") for t in taxonomy]` for whatever `taxonomy` is:
      iterating a dict or a string yields strings, which have no `get`;
      the other scalars cannot be iterated. */
  function CategoriesOf(taxonomy: Json): Result<seq<Json>> {
    match taxonomy
    case JArray(items) => CategoriesOfItems(items)
    case JObject(fields) => if fields == map[] then Ok([]) else Err(NoGet(JStr("")))
    case JStr(s) => if s == "" then Ok([]) else Err(NoGet(JStr("")))
    case _ => Err("'" + TypeName(taxonomy) + "' object is not iterable")
  }

  /** `TAXONOMY_CATEGORIES`. */
  function TaxonomyCategories(plan: Json): Result<seq<Json>> {
    match Get(plan, "taxonomy", JArray([]))
    case Err(e) => Err(e)
    case Ok(taxonomy) => CategoriesOf(taxonomy)
  }

  /** `SCHEMA_FIELDS`, as written: the list looked up in the plan, then
      sliced with `[:-0]`. Since `-0 == 0`, the slice is `[:0]`. */
  function SchemaFields(plan: Json): Result<Json> {
    match Get(plan, "schema_fields", JArray(Strings(DefaultSchemaFields)))
    case Err(e) => Err(e)
    case Ok(JArray(items)) => Ok(JArray(PyPrefix(items, -0)))
    case Ok(JStr(s)) => Ok(JStr(PyPrefix(s, -0)))
    case Ok(JObject(_)) => Err("unhashable type: 'slice'")
    case Ok(v) => Err("'" + TypeName(v) + "' object is not subscriptable")
  }

  /** `SCHEMA_FIELDS` as evidently intended: the field list of the plan,
      uncut. */
  function IntendedSchemaFields(plan: Json): Result<Json> {
    Get(plan, "schema_fields", JArray(Strings(DefaultSchemaFields)))
  }

  /** Whatever the plan holds, the `[:-0]` slice leaves nothing: the prompt
      never lists a single schema field. */
  lemma SchemaFieldsAlwaysEmpty(plan: Json)
    ensures SchemaFields(plan).Ok? ==>
      SchemaFields(plan).value == JArray([]) || SchemaFields(plan).value == JStr("")
  {
  }

  /** Without a usable plan file the plan is the default one: its
      categories are the nine labels in order, with empty definitions, and
      its field list holds the six default fields; yet `SCHEMA_FIELDS` is
      empty. */
  lemma DefaultPlanShape(found: Option<Result<Json>>)
    requires found.None? || found.value.Err?
    ensures TaxonomyCategories(LoadLatestTaxonomy(found)) == Ok(Strings(Taxonomy.Labels))
    ensures SchemaFields(LoadLatestTaxonomy(found)) == Ok(JArray([]))
    ensures IntendedSchemaFields(LoadLatestTaxonomy(found)) == Ok(JArray(Strings(DefaultSchemaFields)))
  {
    DefaultCategories(Taxonomy.Labels);
  }

  lemma {:induction false} DefaultCategories(labels: seq<string>)
    ensures CategoriesOfItems(DefaultEntries(labels)) == Ok(Strings(labels))
    decreases |labels|
  {
    if labels != [] {
      DefaultCategories(labels[1..]);
      assert DefaultEntries(labels)[1..] == DefaultEntries(labels[1..]);
      assert Strings(labels) == [JStr(labels[0])] + Strings(labels[1..]);
    }
  }

  /** Every entry of a plan's taxonomy list contributes its category, in
      order, or `None` when it has none; one entry that is not an object
      makes the whole lookup raise. */
  lemma {:induction false} CategoriesOfItemsSpec(items: seq<Json>)
    ensures CategoriesOfItems(items).Ok? <==> forall i :: 0 <= i < |items| ==> items[i].JObject?
    ensures CategoriesOfItems(items).Ok? ==>
      var cs := CategoriesOfItems(items).value;
      && |cs| == |items|
      && forall i :: 0 <= i < |items| ==>
           cs[i] == (if "category" in items[i].fields then items[i].fields["category"] else JNull)
    decreases |items|
  {
    if items != [] {
      CategoriesOfItemsSpec(items[1..]);
      if !items[0].JObject? {
      } else if CategoriesOfItems(items[1..]).Err? {
        var k :| 0 <= k < |items[1..]| && !items[1..][k].JObject?;
        assert !items[k + 1].JObject?;
      } else {
        forall i | 0 <= i < |items| && 0 < i
          ensures items[i] == items[1..][i - 1]
        {
        }
      }
    }
  }

  // ---------------------------------------------------------------------
  // The few-shot block

  /** `FEWSHOT_BLOCK` (after `.strip()`, which only removes the newline at
      each end), given the printed category list and field list. */
  function FewshotBlock(categories: string, fields: string): string {
    FewshotIntro + categories + FewshotMiddle + fields + FewshotOutro
  }

  const FewshotIntro: string := @"You are building a structured dataset of industrial policy and regulatory instruments.

Use the following category choices exactly as provided: "

  const FewshotMiddle: string := @"

Return ONLY valid JSON with the following keys (use null or empty list when missing):
"

  const FewshotOutro: string := @"

Rules:
- Do NOT invent details.
- Use exact quotes from the text when providing `evidence_spans` or quoted descriptions.
- If information is ambiguous, return null for that field.

Examples (illustrative):
Text: ""Eligible firms may receive matching grants up to HKD 10 million for automation equipment upgrades.""
JSON: {""policy_name"": null, ""category"": ""grant"", ""description"": ""matching grants for automation equipment upgrades"", ""implementing_body"": null, ""target_sector"": ""manufacturing"", ""funding_amount"": ""up to HKD 10 million"", ""evidence_spans"": [""matching grants up to HKD 10 million""]}"

  /** The block offers every category it is given, verbatim. */
  lemma FewshotNamesCategories(categories: seq<string>, fields: string)
    ensures forall i :: 0 <= i < |categories| ==>
      IsInfix(categories[i], FewshotBlock(ListRepr(categories), fields))
  {
    forall i | 0 <= i < |categories|
      ensures IsInfix(categories[i], FewshotBlock(ListRepr(categories), fields))
    {
      ListReprContains(categories, i);
      InfixWithinFive(categories[i], FewshotIntro, ListRepr(categories), FewshotMiddle, fields, FewshotOutro);
    }
  }

  /** The texts of a list whose items are all strings, which is the only
      kind of list whose printing is modelled. */
  function Texts(js: seq<Json>): (r: Option<seq<string>>)
    ensures r.Some? <==> forall i :: 0 <= i < |js| ==> js[i].JStr?
    ensures r.Some? ==> Strings(r.value) == js
  {
    if js == [] then Some([])
    else if !js[0].JStr? then None
    else
      var rest := Texts(js[1..]);
      if rest.None? then
        var k :| 0 <= k < |js[1..]| && !js[1..][k].JStr?;
        assert !js[k + 1].JStr?;
        None
      else
        StringsCons(js[0].s, rest.value);
        assert js == [js[0]] + js[1..];
        Some([js[0].s] + rest.value)
  }

  lemma StringsCons(t: string, xs: seq<string>)
    ensures Strings([t] + xs) == [JStr(t)] + Strings(xs)
  {
    var l := Strings([t] + xs);
    var r := [JStr(t)] + Strings(xs);
    assert |l| == |r|;
    forall i | 0 <= i < |l|
      ensures l[i] == r[i]
    {
      if i > 0 {
        assert ([t] + xs)[i] == xs[i - 1];
      }
    }
  }

  /** How `{SCHEMA_FIELDS}` prints: a list of strings as its `repr`, a
      string as itself. */
  function PrintedFields(fields: Json): Option<string> {
    match fields
    case JArray(items) =>
      (match Texts(items)
       case Some(ts) => Some(ListRepr(ts))
       case None => None)
    case JStr(t) => Some(t)
    case _ => None
  }

  /** The few-shot block of a loaded plan around the given fixed text:
      `None` when computing `TAXONOMY_CATEGORIES` or `SCHEMA_FIELDS` raises,
      or when they hold values other than strings. */
  function PlanBlock(plan: Json, intro: string, middle: string, outro: string): Option<string> {
    match (TaxonomyCategories(plan), SchemaFields(plan))
    case (Ok(cats), Ok(fields)) =>
      (match (Texts(cats), PrintedFields(fields))
       case (Some(cs), Some(fs)) => Some(intro + ListRepr(cs) + middle + fs + outro)
       case _ => None)
    case _ => None
  }

  /** `FEWSHOT_BLOCK` for a loaded plan. */
  function PlanFewshotBlock(plan: Json): Option<string> {
    PlanBlock(plan, FewshotIntro, FewshotMiddle, FewshotOutro)
  }

  /** Whatever the fixed text, the block of a loaded plan offers every
      category of that plan, verbatim. */
  lemma LoadedBlockNamesCategories(plan: Json, intro: string, middle: string, outro: string)
    requires PlanBlock(plan, intro, middle, outro).Some?
    ensures TaxonomyCategories(plan).Ok?
    ensures var cats := TaxonomyCategories(plan).value;
      forall i :: 0 <= i < |cats| ==>
        cats[i].JStr? && IsInfix(cats[i].s, PlanBlock(plan, intro, middle, outro).value)
  {
    var cats := TaxonomyCategories(plan).value;
    var cs := Texts(cats).value;
    var fs := PrintedFields(SchemaFields(plan).value).value;
    TextsRead(cats);
    forall i | 0 <= i < |cats|
      ensures IsInfix(cats[i].s, intro + ListRepr(cs) + middle + fs + outro)
    {
      ListReprContains(cs, i);
      InfixWithinFive(cs[i], intro, ListRepr(cs), middle, fs, outro);
    }
  }

  lemma TextsRead(js: seq<Json>)
    requires Texts(js).Some?
    ensures forall i :: 0 <= i < |js| ==> js[i].JStr? && js[i].s == Texts(js).value[i]
  {
    var cs := Texts(js).value;
    forall i | 0 <= i < |js|
      ensures js[i].JStr? && js[i].s == cs[i]
    {
      assert js[i] == Strings(cs)[i] == JStr(cs[i]);
    }
  }

  lemma TextsOfStrings(xs: seq<string>)
    ensures Texts(Strings(xs)) == Some(xs)
  {
    var r := Texts(Strings(xs));
    assert r.Some?;
    assert Strings(r.value) == Strings(xs);
    assert |r.value| == |xs|;
    forall i | 0 <= i < |xs|
      ensures r.value[i] == xs[i]
    {
      assert Strings(r.value)[i] == JStr(r.value[i]);
    }
    assert r.value == xs;
  }

  /** Without a usable plan file, whatever the fixed text, the block
      prints the nine labels and `[]` for the fields, and names each of the
      nine labels. */
  lemma DefaultFewshotNamesLabels(found: Option<Result<Json>>, intro: string, middle: string, outro: string)
    requires found.None? || found.value.Err?
    ensures PlanBlock(LoadLatestTaxonomy(found), intro, middle, outro)
            == Some(intro + ListRepr(Taxonomy.Labels) + middle + "[]" + outro)
    ensures forall i :: 0 <= i < |Taxonomy.Labels| ==>
      IsInfix(Taxonomy.Labels[i], PlanBlock(LoadLatestTaxonomy(found), intro, middle, outro).value)
  {
    DefaultPlanShape(found);
    TextsOfStrings(Taxonomy.Labels);
    assert PrintedFields(JArray([])) == Some(ListRepr([]));
    assert ListRepr([]) == "[]";
    forall i | 0 <= i < |Taxonomy.Labels|
      ensures IsInfix(Taxonomy.Labels[i], intro + ListRepr(Taxonomy.Labels) + middle + "[]" + outro)
    {
      ListReprContains(Taxonomy.Labels, i);
      InfixWithinFive(Taxonomy.Labels[i], intro, ListRepr(Taxonomy.Labels), middle, "[]", outro);
    }
  }
}
