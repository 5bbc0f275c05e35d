/** getArticles of the articles module: configure the articles model from the
    module parameters, load the articles, prepare each one for display in
    place, and group the list when article_grouping asks for it. */
module Articles {
  import opened Php
  import opened OrderedArray
  import opened Article
  import opened Grouping
  import opened FilterState
  import opened Display

  /** What getArticles hands back: the flat list, the groups of articles
      (by date or by tag), or the groups of groupBy (by author or category). */
  datatype Listing =
    | Flat(items: seq<Item>)
    | Grouped(groups: seq<Group<Item>>)
    | GroupedKept(kept: seq<Group<Kept>>)

  /** The grouping parameters, each with the default it is read with. */
  datatype GroupingParams = GroupingParams(grouping: Value, direction: Value, monthYearFormat: Value, dateField: Value)

  /** A blank parameter reads as its default; the default direction sorts ascending. */
  function ReadGroupingParams(params: map<string, Value>): (g: GroupingParams)
    ensures Blank(params, "article_grouping") ==> g.grouping == Str("none")
    ensures Blank(params, "article_grouping_direction") ==> g.direction == Str("ksort")
    ensures Blank(params, "article_grouping_direction") ==> SortFunction(g.direction) == Some(Ascending)
    ensures Blank(params, "month_year_format") ==> g.monthYearFormat == Str("F Y")
    ensures Blank(params, "date_grouping_field") ==> g.dateField == Str("created")
  {
    GroupingParams(
      Get(params, "article_grouping", Str("none")), Get(params, "article_grouping_direction", Str("ksort")),
      Get(params, "month_year_format", Str("F Y")), Get(params, "date_grouping_field", Str("created")))
  }

  /** The branch of `switch ($article_grouping)` taken; `switch` compares loosely. */
  datatype Mode = DateMode | PropertyMode(name: string) | TagsMode | NoMode

  function ModeOf(grouping: Value): (m: Mode)
    ensures m.PropertyMode? ==> m.name == "author" || m.name == "category_title"
  {
    if LooseEqualsLabel(grouping, "year") || LooseEqualsLabel(grouping, "month_year") then DateMode
    else if LooseEqualsLabel(grouping, "author") then PropertyMode("author")
    else if LooseEqualsLabel(grouping, "category_title") then PropertyMode("category_title")
    else if LooseEqualsLabel(grouping, "tags") then TagsMode
    else NoMode
  }

  /** `if ($items && $grouped)` with `$grouped = $article_grouping !== 'none'`,
      and a `case` that matches. */
  predicate GroupingApplies(items: seq<Item>, g: GroupingParams) {
    items != [] && g.grouping != Str("none") && !ModeOf(g.grouping).NoMode?
  }

  /** What the grouping step makes of `items`. `sorted` is the dictionary right
      after `$direction($grouped)`: before the month_year relabelling, and
      before the untagged articles are added. */
  ghost predicate GroupingOutcome(items: seq<Item>, g: GroupingParams, formatDate: (string, string) -> string,
                                  r: Result<Listing>, sorted: Listing)
  {
    if !GroupingApplies(items, g) then r == Success(Flat(items))
    else
      && (r.Success? <==> SortFunction(g.direction).Some?)
      && (r.Success? ==>
            var order := SortFunction(g.direction).value;
            match ModeOf(g.grouping)
            case DateMode =>
              && r.value.Grouped? && sorted.Grouped?
              && IsPartition(sorted.groups, items, DateKey(g.grouping, ToStr(g.dateField)), ItemSelf())
              && SortedBy(sorted.groups, order)
              && (g.grouping != Str("month_year") ==> r.value == sorted)
              && (g.grouping == Str("month_year") ==>
                    RelabelOutcome(sorted.groups, r.value.groups, MonthLabel(formatDate, ToStr(g.monthYearFormat))))
            case PropertyMode(name) =>
              && r.value.GroupedKept?
              && IsPartition(r.value.kept, items, PropertyKey(name), KeepFn(None))
              && SortedBy(r.value.kept, order)
            case TagsMode =>
              && r.value.Grouped? && sorted.Grouped?
              && TagGrouping(sorted.groups, items)
              && SortedBy(sorted.groups, order)
              && r.value.groups == if UntaggedItems(items) == [] then sorted.groups
                                   else Assign(sorted.groups, UntaggedKey, Numbering(UntaggedItems(items)))
            case NoMode => true)
  }

  /** The grouping step at the end of getArticles. */
  method GroupItems(items: seq<Item>, g: GroupingParams, formatDate: (string, string) -> string)
    returns (r: Result<Listing>, ghost sorted: Listing)
    ensures !GroupingApplies(items, g) ==> r == Success(Flat(items))
    ensures GroupingApplies(items, g) ==> (r.Success? <==> SortFunction(g.direction).Some?)
    ensures r.Failure? ==> r.fault == SortCallNotModelled(g.direction)
    ensures GroupingOutcome(items, g, formatDate, r, sorted)
  {
    sorted := Flat(items);
    r := Success(Flat(items));
    if items != [] && g.grouping != Str("none") {
      match ModeOf(g.grouping) {
        case DateMode =>
          var grouped;
          ghost var byKey;
          grouped, byKey := GroupByDate(Items(items), g.direction, g.grouping,
                                        ToStr(g.monthYearFormat), ToStr(g.dateField), formatDate);
          sorted := Grouped(byKey);
          r := if grouped.Success? then Success(Grouped(grouped.value)) else Failure(grouped.fault);
        case PropertyMode(name) =>
          var grouped := GroupBy(Items(items), name, g.direction, None);
          r := if grouped.Success? then Success(GroupedKept(grouped.value)) else Failure(grouped.fault);
        case TagsMode =>
          var grouped;
          ghost var tagged;
          grouped, tagged := GroupByTags(items, g.direction);
          sorted := Grouped(tagged);
          r := if grouped.Success? then Success(Grouped(grouped.value)) else Failure(grouped.fault);
        case NoMode =>
      }
    }
  }

  /** getArticles: the model is configured from the parameters, `fetch` stands
      for `$articles->getItems()` on the configured state, every loaded article
      is prepared for display in place, and the list is grouped. `prepared` is
      the list between the display loop and the grouping. */
  method GetArticles(params: map<string, Value>, env: Environment, fetch: map<StateKey, Value> -> seq<Item>,
                     sv: Services, formatGroupDate: (string, string) -> string)
    returns (r: Result<Listing>, ghost prepared: seq<Item>)
    ensures Configured(map[], ReadFilterParams(params), env).Failure? ==>
              r == Failure(Configured(map[], ReadFilterParams(params), env).fault)
    ensures Configured(map[], ReadFilterParams(params), env).Success? ==>
              var loaded := fetch(Configured(map[], ReadFilterParams(params), env).value);
              && |prepared| == |loaded|
              && (forall k | 0 <= k < |loaded| ::
                    Prepared(loaded[k], prepared[k], ReadDisplayParams(params), !Truthy(env.showNoauth), env, sv))
              && exists sorted :: GroupingOutcome(prepared, ReadGroupingParams(params), formatGroupDate, r, sorted)
  {
    r, prepared := Produce(ReadFilterParams(params), ReadDisplayParams(params), ReadGroupingParams(params),
                           env, fetch, sv, formatGroupDate);
  }

  /** The body of getArticles once the parameters are read. */
  method Produce(p: FilterParams, d: DisplayParams, g: GroupingParams, env: Environment,
                 fetch: map<StateKey, Value> -> seq<Item>, sv: Services, formatGroupDate: (string, string) -> string)
    returns (r: Result<Listing>, ghost prepared: seq<Item>)
    ensures Configured(map[], p, env).Failure? ==> r == Failure(Configured(map[], p, env).fault)
    ensures Configured(map[], p, env).Success? ==>
              var loaded := fetch(Configured(map[], p, env).value);
              && |prepared| == |loaded|
              && (forall k | 0 <= k < |loaded| :: Prepared(loaded[k], prepared[k], d, !Truthy(env.showNoauth), env, sv))
              && exists sorted :: GroupingOutcome(prepared, g, formatGroupDate, r, sorted)
  {
    prepared := [];
    var model := new ArticlesModel();
    var fault := Configure(model, p, env);
    if fault.Some? {
      return Failure(fault.value), prepared;
    }
    var loaded := fetch(model.state);
    var items := new Item[|loaded|](k requires 0 <= k < |loaded| => loaded[k]);
    assert items[..] == loaded;
    PrepareItems(items, d, !Truthy(env.showNoauth), env, sv);
    prepared := items[..];
    ghost var sorted;
    r, sorted := GroupItems(items[..], g, formatGroupDate);
  }

  // ---------------------------------------------------------------------------
  // Which grouping applies

  /** The labels select their own branch; `true` equals every label and takes
      the first, and any other value leaves the list ungrouped. */
  lemma ModeOfLabels(v: Value)
    ensures ModeOf(Str("year")) == DateMode && ModeOf(Str("month_year")) == DateMode
    ensures ModeOf(Str("author")) == PropertyMode("author")
    ensures ModeOf(Str("category_title")) == PropertyMode("category_title")
    ensures ModeOf(Str("tags")) == TagsMode
    ensures ModeOf(Bool(true)) == DateMode
    ensures !ModeOf(v).NoMode? <==>
              (v.Bool? && v.b) || (v.Str? && v.s in ["year", "month_year", "author", "category_title", "tags"])
  {
  }

  /** The list is returned as loaded when grouping is off, when nothing was
      loaded, and when article_grouping names no grouping. */
  lemma NoGroupingPassesThrough(items: seq<Item>, g: GroupingParams, formatDate: (string, string) -> string,
                                r: Result<Listing>, sorted: Listing)
    requires GroupingOutcome(items, g, formatDate, r, sorted)
    requires items == [] || g.grouping == Str("none") || ModeOf(g.grouping) == NoMode
    ensures r == Success(Flat(items))
  {
  }

  /** Grouping by author or category puts every article, and only those, into
      the group of its own value, once. */
  lemma PropertyGroupsHoldEveryArticle(items: seq<Item>, g: GroupingParams, formatDate: (string, string) -> string,
                                       r: Result<Listing>, sorted: Listing, name: string)
    requires GroupingOutcome(items, g, formatDate, r, sorted)
    requires GroupingApplies(items, g) && ModeOf(g.grouping) == PropertyMode(name) && r.Success?
    ensures r.value.GroupedKept?
    ensures forall i | 0 <= i < |items| ::
              exists grp | grp in r.value.kept :: grp.key == Property(items[i], name) && Entry(i, Whole(items[i])) in grp.bucket
    ensures forall grp, e | grp in r.value.kept && e in grp.bucket ::
              e.key < |items| && e.value == Whole(items[e.key]) && Property(items[e.key], name) == grp.key
  {
    var gs := r.value.kept;
    forall i | 0 <= i < |items|
      ensures exists grp | grp in gs :: grp.key == Property(items[i], name) && Entry(i, Whole(items[i])) in grp.bucket
    {
      assert Placed(gs, items, PropertyKey(name), KeepFn(None), i);
      var grp :| grp in gs && grp.key == PropertyKey(name)(items[i]) && Entry(i, KeepFn(None)(items[i])) in grp.bucket;
      assert grp.key == Property(items[i], name) && KeepFn(None)(items[i]) == Whole(items[i]);
    }
    forall grp, e | grp in gs && e in grp.bucket
      ensures e.key < |items| && e.value == Whole(items[e.key]) && Property(items[e.key], name) == grp.key
    {
      assert GroupOf(grp, items, PropertyKey(name), KeepFn(None));
    }
  }
}
