/** The first half of getArticles: the module parameters are translated into
    the filter state of com_content's articles model, one `setState` call at a
    time. The categories model, the access levels, the vote plugin and the
    request are collaborators and arrive as an `Environment`. */
module FilterState {
  import opened Php

  /** The state names the module sets on the articles model. */
  datatype StateKey =
    | AppParams | ListStart | FilterPublished | ListLimit | LoadTags | FilterAccess
    | CategoryInclude | CategoryId | ListOrdering | ListDirection
    | FilterTag | FilterFeatured | AuthorId | AuthorIdInclude | AuthorAlias | AuthorAliasInclude
    | ArticleId | ArticleIdInclude
    | DateFiltering | DateField | StartDateRange | EndDateRange | RelativeDate
    | FilterLanguage
  {
    /** The name the articles model knows the state by. */
    function Name(): string {
      match this
      case AppParams => "params"
      case ListStart => "list.start"
      case FilterPublished => "filter.published"
      case ListLimit => "list.limit"
      case LoadTags => "load_tags"
      case FilterAccess => "filter.access"
      case CategoryInclude => "filter.category_id.include"
      case CategoryId => "filter.category_id"
      case ListOrdering => "list.ordering"
      case ListDirection => "list.direction"
      case FilterTag => "filter.tag"
      case FilterFeatured => "filter.featured"
      case AuthorId => "filter.author_id"
      case AuthorIdInclude => "filter.author_id.include"
      case AuthorAlias => "filter.author_alias"
      case AuthorAliasInclude => "filter.author_alias.include"
      case ArticleId => "filter.article_id"
      case ArticleIdInclude => "filter.article_id.include"
      case DateFiltering => "filter.date_filtering"
      case DateField => "filter.date_field"
      case StartDateRange => "filter.start_date_range"
      case EndDateRange => "filter.end_date_range"
      case RelativeDate => "filter.relative_date"
      case FilterLanguage => "filter.language"
    }
  }

  /** ContentComponent::CONDITION_PUBLISHED and CONDITION_ARCHIVED. */
  const ConditionPublished := 1
  const ConditionArchived := 2

  /** The request as the module reads it. `id` and `itemId` are the integers
      the request carries; the INT filter keeps them, the UINT filter takes
      their absolute value. */
  datatype Request = Request(option: string, view: string, id: int, itemId: int)

  /** Whether the page shows a single article of com_content. */
  predicate OnArticlePage(request: Request) {
    request.option == "com_content" && request.view == "article"
  }

  /** A category as the categories model returns it. */
  datatype Category = Category(id: int, level: int)

  datatype Environment = Environment(
    appParams: Value,                    // $app->getParams()
    showNoauth: Value,                   // com_content's show_noauth
    authorised: seq<int>,                // Access::getAuthorisedViewLevels() of the user
    voteEnabled: bool,                   // PluginHelper::isEnabled('content', 'vote')
    languageFilter: Value,               // $app->getLanguageFilter()
    request: Request,
    loginMenuItem: Option<int>,          // the id of the first menu item linking to the login view
    categoryItems: Value -> seq<Category>, // the categories model's getItems() below a parent id
    parentLevel: Value -> int)           // the level of that parent category

  /** The articles model, reduced to the state the module sets on it. */
  class ArticlesModel {
    var state: map<StateKey, Value>

    constructor ()
      ensures state == map[]
    {
      state := map[];
    }

    /** `$articles->setState($key, $value)`. */
    method SetState(key: StateKey, value: Value)
      modifies this
      ensures state == old(state)[key := value]
    {
      state := state[key := value];
    }
  }

  // ---------------------------------------------------------------------------
  // Child categories

  /** The categories below `parent` at most `levels` levels deeper than it. */
  function WithinDepth(categories: seq<Category>, parentLevel: int, levels: int): seq<Value> {
    if categories == [] then []
    else
      var c := categories[|categories| - 1];
      WithinDepth(categories[..|categories| - 1], parentLevel, levels)
        + (if c.level - parentLevel <= levels then [Int(c.id)] else [])
  }

  /** The ids collected for all selected categories, in the order visited. */
  function Descendants(catids: seq<Value>, env: Environment, levels: int): seq<Value> {
    if catids == [] then []
    else
      var catid := catids[|catids| - 1];
      Descendants(catids[..|catids| - 1], env, levels)
        + WithinDepth(env.categoryItems(catid), env.parentLevel(catid), levels)
  }

  lemma {:induction false} WithinDepthMembers(categories: seq<Category>, parentLevel: int, levels: int, v: Value)
    ensures v in WithinDepth(categories, parentLevel, levels) <==>
              exists c | c in categories :: c.level - parentLevel <= levels && v == Int(c.id)
  {
    if categories != [] {
      var prefix := categories[..|categories| - 1];
      WithinDepthMembers(prefix, parentLevel, levels, v);
      assert categories == prefix + [categories[|categories| - 1]];
    }
  }

  /** Every collected id belongs to a category below one of the selected ones,
      at most `levels` deeper than it, and every such category is collected. */
  lemma {:induction false} DescendantsMembers(catids: seq<Value>, env: Environment, levels: int, v: Value)
    ensures v in Descendants(catids, env, levels) <==>
              exists k, c | 0 <= k < |catids| && c in env.categoryItems(catids[k]) ::
                c.level - env.parentLevel(catids[k]) <= levels && v == Int(c.id)
  {
    if catids != [] {
      var n := |catids| - 1;
      var prefix := catids[..n];
      DescendantsMembers(prefix, env, levels, v);
      WithinDepthMembers(env.categoryItems(catids[n]), env.parentLevel(catids[n]), levels, v);
      if exists k, c | 0 <= k < n && c in env.categoryItems(prefix[k]) ::
           c.level - env.parentLevel(prefix[k]) <= levels && v == Int(c.id) {
        var k, c :| 0 <= k < n && c in env.categoryItems(prefix[k])
                    && c.level - env.parentLevel(prefix[k]) <= levels && v == Int(c.id);
        assert prefix[k] == catids[k];
      }
      if exists k, c | 0 <= k < |catids| && c in env.categoryItems(catids[k]) ::
           c.level - env.parentLevel(catids[k]) <= levels && v == Int(c.id) {
        var k, c :| 0 <= k < |catids| && c in env.categoryItems(catids[k])
                    && c.level - env.parentLevel(catids[k]) <= levels && v == Int(c.id);
        if k < n {
          assert prefix[k] == catids[k];
        }
      }
    }
  }

  /** The nested loop over the selected categories and their descendants. */
  method CollectDescendants(catids: seq<Value>, env: Environment, levels: int) returns (additional: seq<Value>)
    ensures additional == Descendants(catids, env, levels)
  {
    additional := [];
    var i := 0;
    while i < |catids|
      invariant i <= |catids|
      invariant additional == Descendants(catids[..i], env, levels)
    {
      var categories := env.categoryItems(catids[i]);
      var parent := env.parentLevel(catids[i]);
      ghost var before := additional;
      var j := 0;
      while j < |categories|
        invariant j <= |categories|
        invariant additional == before + WithinDepth(categories[..j], parent, levels)
      {
        if categories[j].level - parent <= levels {
          additional := additional + [Int(categories[j].id)];
        }
        assert categories[..j + 1][..j] == categories[..j];
        j := j + 1;
      }
      assert categories[..j] == categories;
      assert catids[..i + 1][..i] == catids[..i];
      i := i + 1;
    }
    assert catids[..i] == catids;
  }

  /** A list array_unique cannot compare: an object without `__toString()`
      among its values raises an error. */
  predicate HoldsObject(vs: seq<Value>) {
    exists k | 0 <= k < |vs| :: vs[k].Object?
  }

  /** `array_unique`: the first of the values with the same string form. */
  function Unique(vs: seq<Value>): seq<Value> {
    if vs == [] then []
    else
      var kept := Unique(vs[..|vs| - 1]);
      var v := vs[|vs| - 1];
      if exists w | w in kept :: ToStr(w) == ToStr(v) then kept else kept + [v]
  }

  /** array_unique keeps only values of the list. */
  lemma {:induction false} UniqueWithinList(vs: seq<Value>)
    ensures forall w | w in Unique(vs) :: w in vs
  {
    if vs != [] {
      UniqueWithinList(vs[..|vs| - 1]);
    }
  }

  /** array_unique keeps one value per string form. */
  lemma {:induction false} UniqueDistinct(vs: seq<Value>)
    ensures forall p, q | 0 <= p < q < |Unique(vs)| :: ToStr(Unique(vs)[p]) != ToStr(Unique(vs)[q])
  {
    if vs != [] {
      UniqueDistinct(vs[..|vs| - 1]);
    }
  }

  /** Every string form of the list survives array_unique. */
  lemma {:induction false} UniqueCovers(vs: seq<Value>)
    ensures forall v | v in vs :: exists w | w in Unique(vs) :: ToStr(w) == ToStr(v)
  {
    if vs != [] {
      var prefix := vs[..|vs| - 1];
      UniqueCovers(prefix);
      assert vs == prefix + [vs[|vs| - 1]];
      var kept := Unique(prefix);
      assert forall w | w in kept :: w in Unique(vs);
      if !exists w | w in kept :: ToStr(w) == ToStr(vs[|vs| - 1]) {
        assert vs[|vs| - 1] in Unique(vs);
      }
    }
  }

  /** The module parameters getArticles reads for the filter state, each with
      the default it is read with. */
  datatype FilterParams = FilterParams(
    count: Value, showTags: Value, articleGrouping: Value, categoryFilteringType: Value,
    catid: Value, showChildCategoryArticles: Value, levelsChecked: Value, levels: Value,
    articleOrdering: Value, articleOrderingDirection: Value,
    filterTag: Value, showFeatured: Value, createdBy: Value, authorFilteringType: Value,
    createdByAlias: Value, authorAliasFilteringType: Value, showArchived: Value,
    excludedArticles: Value, excludeCurrent: Value, includedArticles: Value,
    dateFiltering: Value, dateField: Value, startDateRange: Value, endDateRange: Value, relativeDate: Value)

  /** `$params->get(name, default)` for each of them: a blank parameter reads
      as its default. `levels` is read twice, with default 0 for the depth test
      and 1 for the depth itself, so only a blank `levels` tells them apart. */
  function ReadFilterParams(params: map<string, Value>): (p: FilterParams)
    ensures Blank(params, "count") ==> p.count == Int(0)
    ensures Blank(params, "show_tags") ==> p.showTags == Int(0)
    ensures Blank(params, "article_grouping") ==> p.articleGrouping == Str("none")
    ensures Blank(params, "category_filtering_type") ==> p.categoryFilteringType == Int(1)
    ensures Blank(params, "catid") ==> p.catid == Null
    ensures Blank(params, "show_child_category_articles") ==> p.showChildCategoryArticles == Int(0)
    ensures Blank(params, "levels") ==> p.levelsChecked == Int(0) && p.levels == Int(1)
    ensures !Blank(params, "levels") ==> p.levelsChecked == p.levels == params["levels"]
    ensures Blank(params, "article_ordering") ==> p.articleOrdering == Str("a.ordering")
    ensures Blank(params, "article_ordering_direction") ==> p.articleOrderingDirection == Str("ASC")
    ensures Blank(params, "filter_tag") ==> p.filterTag == List([])
    ensures Blank(params, "show_featured") ==> p.showFeatured == Str("show")
    ensures Blank(params, "created_by") ==> p.createdBy == List([])
    ensures Blank(params, "author_filtering_type") ==> p.authorFilteringType == Int(1)
    ensures Blank(params, "created_by_alias") ==> p.createdByAlias == List([])
    ensures Blank(params, "author_alias_filtering_type") ==> p.authorAliasFilteringType == Int(1)
    ensures Blank(params, "show_archived") ==> p.showArchived == Str("hide")
    ensures Blank(params, "excluded_articles") ==> p.excludedArticles == Str("")
    ensures Blank(params, "exclude_current") ==> p.excludeCurrent == Bool(true)
    ensures Blank(params, "included_articles") ==> p.includedArticles == Str("")
    ensures Blank(params, "date_filtering") ==> p.dateFiltering == Str("off")
    ensures Blank(params, "date_field") ==> p.dateField == Str("a.created")
    ensures Blank(params, "start_date_range") ==> p.startDateRange == Str("1000-01-01 00:00:00")
    ensures Blank(params, "end_date_range") ==> p.endDateRange == Str("9999-12-31 23:59:59")
    ensures Blank(params, "relative_date") ==> p.relativeDate == Int(30)
  {
    FilterParams(
      Get(params, "count", Int(0)), Get(params, "show_tags", Int(0)), Get(params, "article_grouping", Str("none")),
      Get(params, "category_filtering_type", Int(1)),
      Get(params, "catid", Null), Get(params, "show_child_category_articles", Int(0)),
      Get(params, "levels", Int(0)), Get(params, "levels", Int(1)),
      Get(params, "article_ordering", Str("a.ordering")), Get(params, "article_ordering_direction", Str("ASC")),
      Get(params, "filter_tag", List([])), Get(params, "show_featured", Str("show")),
      Get(params, "created_by", List([])), Get(params, "author_filtering_type", Int(1)),
      Get(params, "created_by_alias", List([])), Get(params, "author_alias_filtering_type", Int(1)),
      Get(params, "show_archived", Str("hide")),
      Get(params, "excluded_articles", Str("")), Get(params, "exclude_current", Bool(true)),
      Get(params, "included_articles", Str("")),
      Get(params, "date_filtering", Str("off")), Get(params, "date_field", Str("a.created")),
      Get(params, "start_date_range", Str("1000-01-01 00:00:00")), Get(params, "end_date_range", Str("9999-12-31 23:59:59")),
      Get(params, "relative_date", Int(30)))
  }

  /** `$params->get('levels', 1) ?: 9999`, compared as an integer. */
  function Depth(p: FilterParams): int {
    ToInt(if Truthy(p.levels) then p.levels else Int(9999))
  }

  /** Whenever the depth test passes, the depth is the `levels` value that was
      tested: both reads see the same stored value, and a value that casts to a
      positive integer is truthy, so the fallback 9999 is never taken. */
  lemma ExpansionDepth(params: map<string, Value>)
    ensures var p := ReadFilterParams(params);
            ToInt(p.levelsChecked) > 0 ==> Depth(p) == ToInt(p.levelsChecked)
  {
    var p := ReadFilterParams(params);
    NonZeroIsTruthy(p.levels);
  }

  /** The category filter, applied to state `s`: the selected ids, with their
      descendants added and duplicates removed when child categories are shown;
      nothing when no category is selected. */
  function WithCategories(s: map<StateKey, Value>, p: FilterParams, env: Environment): Result<map<StateKey, Value>> {
    var catids := p.catid;
    if !Truthy(catids) then Success(s)
    else if Truthy(p.showChildCategoryArticles) && ToInt(p.levelsChecked) > 0 then
      match catids
      case List(xs) =>
        var all := xs + Descendants(xs, env, Depth(p));
        if HoldsObject(all) then Failure(StringConversionError)
        else Success(s[CategoryId := List(Unique(all))])
      case _ => Failure(ArrayMergeTypeError)
    else Success(s[CategoryId := catids])
  }

  // ---------------------------------------------------------------------------
  // Ordering, article ids, dates

  /** The ordering: a random order expression, or the named column and its
      direction, the rating columns falling back to the manual order when the
      vote plugin is off. */
  function WithOrdering(s: map<StateKey, Value>, p: FilterParams, env: Environment): map<StateKey, Value> {
    var ordering := p.articleOrdering;
    var direction := p.articleOrderingDirection;
    if LooseEqualsLabel(ordering, "random") then s[ListOrdering := Object("rand")]
    else if LooseEqualsLabel(ordering, "rating_count") || LooseEqualsLabel(ordering, "rating") then
      var updated := s[ListOrdering := ordering][ListDirection := direction];
      if env.voteEnabled then updated else updated[ListOrdering := Str("a.ordering")]
    else s[ListOrdering := ordering][ListDirection := direction]
  }

  /** `explode("\r\n", $v)` of a parameter value. */
  function ExplodeValue(v: Value): Result<seq<Value>> {
    match v
    case List(_) => Failure(ExplodeTypeError)
    case Object(_) => Failure(ExplodeTypeError)
    case _ => Success(StrValues(Explode(ToStr(v))))
  }

  function StrValues(parts: seq<string>): (r: seq<Value>)
    ensures |r| == |parts| && forall k | 0 <= k < |parts| :: r[k] == Str(parts[k])
  {
    if parts == [] then [] else StrValues(parts[..|parts| - 1]) + [Str(parts[|parts| - 1])]
  }

  /** The id of the article the page shows, as the UINT filter reads it. */
  function CurrentId(request: Request): nat {
    if request.id < 0 then -request.id else request.id
  }

  /** The exclusion list, with the current article added on an article page
      when `exclude_current` is on. */
  function ExcludedArticles(p: FilterParams, request: Request): Result<Value> {
    var excluded := p.excludedArticles;
    if Truthy(p.excludeCurrent) && OnArticlePage(request) then
      match Concat(excluded, "\r\n" + NatToString(CurrentId(request)))
      case Success(joined) => Success(Str(joined))
      case Failure(f) => Failure(f)
    else Success(excluded)
  }

  /** The article id filter: a non-empty exclusion list is set first, then a
      non-empty inclusion list replaces it. */
  function WithArticleIds(s: map<StateKey, Value>, p: FilterParams, request: Request): Result<map<StateKey, Value>> {
    var included := p.includedArticles;
    match ExcludedArticles(p, request)
    case Failure(f) => Failure(f)
    case Success(excluded) =>
      var excludedIds := if Truthy(excluded) then ExplodeValue(excluded) else Success([]);
      if excludedIds.Failure? then Failure(excludedIds.fault)
      else
        var afterExclusion := if Truthy(excluded) then s[ArticleId := List(excludedIds.value)][ArticleIdInclude := Bool(false)] else s;
        var includedIds := if Truthy(included) then ExplodeValue(included) else Success([]);
        if includedIds.Failure? then Failure(includedIds.fault)
        else if Truthy(included) then Success(afterExclusion[ArticleId := List(includedIds.value)][ArticleIdInclude := Bool(true)])
        else Success(afterExclusion)
  }

  /** The date filter, set only when date filtering is not 'off'. */
  function WithDates(s: map<StateKey, Value>, p: FilterParams): map<StateKey, Value> {
    var dateFiltering := p.dateFiltering;
    if dateFiltering == Str("off") then s
    else s[DateFiltering := dateFiltering]
          [DateField := p.dateField]
          [StartDateRange := p.startDateRange]
          [EndDateRange := p.endDateRange]
          [RelativeDate := p.relativeDate]
  }

  /** The first settings: application parameters, paging, the published
      condition, the count, tag loading, access and the category filter mode. */
  function WithBasics(s: map<StateKey, Value>, p: FilterParams, env: Environment): map<StateKey, Value> {
    s[AppParams := env.appParams]
     [ListStart := Int(0)]
     [FilterPublished := Int(ConditionPublished)]
     [ListLimit := Int(ToInt(p.count))]
     [LoadTags := Bool(Truthy(p.showTags) || p.articleGrouping == Str("tags"))]
     [FilterAccess := Bool(!Truthy(env.showNoauth))]
     [CategoryInclude := Bool(Truthy(p.categoryFilteringType))]
  }

  /** Tags, featured articles, authors and the archived condition. */
  function WithContentFilters(s: map<StateKey, Value>, p: FilterParams): map<StateKey, Value> {
    var updated := s[FilterTag := p.filterTag]
                [FilterFeatured := p.showFeatured]
                [AuthorId := p.createdBy]
                [AuthorIdInclude := p.authorFilteringType]
                [AuthorAlias := p.createdByAlias]
                [AuthorAliasInclude := p.authorAliasFilteringType];
    if p.showArchived == Str("show") then updated[FilterPublished := Int(ConditionArchived)] else updated
  }

  /** The model state after getArticles has configured a model whose state was
      `start`, or the error that stops it. */
  function Configured(start: map<StateKey, Value>, p: FilterParams, env: Environment): Result<map<StateKey, Value>> {
    match WithCategories(WithBasics(start, p, env), p, env)
    case Failure(f) => Failure(f)
    case Success(s) =>
      match WithArticleIds(WithContentFilters(WithOrdering(s, p, env), p), p, env.request)
      case Failure(f) => Failure(f)
      case Success(t) => Success(WithDates(t, p)[FilterLanguage := env.languageFilter])
  }

  // ---------------------------------------------------------------------------
  // The setState sequence

  method SetBasics(model: ArticlesModel, p: FilterParams, env: Environment)
    modifies model
    ensures model.state == WithBasics(old(model.state), p, env)
  {
    model.SetState(AppParams, env.appParams);
    model.SetState(ListStart, Int(0));
    model.SetState(FilterPublished, Int(ConditionPublished));
    model.SetState(ListLimit, Int(ToInt(p.count)));
    model.SetState(LoadTags, Bool(Truthy(p.showTags) || p.articleGrouping == Str("tags")));
    var access := !Truthy(env.showNoauth);
    model.SetState(FilterAccess, Bool(access));
    model.SetState(CategoryInclude, Bool(Truthy(p.categoryFilteringType)));
  }

  method SetCategories(model: ArticlesModel, p: FilterParams, env: Environment) returns (fault: Option<Fault>)
    modifies model
    ensures fault.Some? <==> WithCategories(old(model.state), p, env).Failure?
    ensures fault.Some? ==> fault.value == WithCategories(old(model.state), p, env).fault
    ensures fault.None? ==> model.state == WithCategories(old(model.state), p, env).value
  {
    var catids := p.catid;
    if Truthy(catids) {
      if Truthy(p.showChildCategoryArticles) && ToInt(p.levelsChecked) > 0 {
        var levels := if Truthy(p.levels) then p.levels else Int(9999);
        assert ToInt(levels) == Depth(p);
        if !catids.List? {
          return Some(ArrayMergeTypeError);
        }
        var additional := CollectDescendants(catids.elems, env, ToInt(levels));
        var all := catids.elems + additional;
        if HoldsObject(all) {
          return Some(StringConversionError);
        }
        catids := List(Unique(all));
      }
      model.SetState(CategoryId, catids);
    }
    fault := None;
  }

  method SetOrdering(model: ArticlesModel, p: FilterParams, env: Environment)
    modifies model
    ensures model.state == WithOrdering(old(model.state), p, env)
  {
    var ordering := p.articleOrdering;
    if LooseEqualsLabel(ordering, "random") {
      model.SetState(ListOrdering, Object("rand"));
    } else if LooseEqualsLabel(ordering, "rating_count") || LooseEqualsLabel(ordering, "rating") {
      model.SetState(ListOrdering, ordering);
      model.SetState(ListDirection, p.articleOrderingDirection);
      if !env.voteEnabled {
        model.SetState(ListOrdering, Str("a.ordering"));
      }
    } else {
      model.SetState(ListOrdering, ordering);
      model.SetState(ListDirection, p.articleOrderingDirection);
    }
  }

  method SetContentFilters(model: ArticlesModel, p: FilterParams)
    modifies model
    ensures model.state == WithContentFilters(old(model.state), p)
  {
    model.SetState(FilterTag, p.filterTag);
    model.SetState(FilterFeatured, p.showFeatured);
    model.SetState(AuthorId, p.createdBy);
    model.SetState(AuthorIdInclude, p.authorFilteringType);
    model.SetState(AuthorAlias, p.createdByAlias);
    model.SetState(AuthorAliasInclude, p.authorAliasFilteringType);
    if p.showArchived == Str("show") {
      model.SetState(FilterPublished, Int(ConditionArchived));
    }
  }

  method SetArticleIds(model: ArticlesModel, p: FilterParams, request: Request) returns (fault: Option<Fault>)
    modifies model
    ensures fault.Some? <==> WithArticleIds(old(model.state), p, request).Failure?
    ensures fault.Some? ==> fault.value == WithArticleIds(old(model.state), p, request).fault
    ensures fault.None? ==> model.state == WithArticleIds(old(model.state), p, request).value
  {
    var excluded := p.excludedArticles;
    if Truthy(p.excludeCurrent) && OnArticlePage(request) {
      var appended := Concat(excluded, "\r\n" + NatToString(CurrentId(request)));
      if appended.Failure? {
        return Some(appended.fault);
      }
      excluded := Str(appended.value);
    }
    if Truthy(excluded) {
      var ids := ExplodeValue(excluded);
      if ids.Failure? {
        return Some(ids.fault);
      }
      model.SetState(ArticleId, List(ids.value));
      model.SetState(ArticleIdInclude, Bool(false));
    }
    var included := p.includedArticles;
    if Truthy(included) {
      var ids := ExplodeValue(included);
      if ids.Failure? {
        return Some(ids.fault);
      }
      model.SetState(ArticleId, List(ids.value));
      model.SetState(ArticleIdInclude, Bool(true));
    }
    fault := None;
  }

  method SetDates(model: ArticlesModel, p: FilterParams)
    modifies model
    ensures model.state == WithDates(old(model.state), p)
  {
    var dateFiltering := p.dateFiltering;
    if dateFiltering != Str("off") {
      model.SetState(DateFiltering, dateFiltering);
      model.SetState(DateField, p.dateField);
      model.SetState(StartDateRange, p.startDateRange);
      model.SetState(EndDateRange, p.endDateRange);
      model.SetState(RelativeDate, p.relativeDate);
    }
  }

  /** The `setState` sequence of getArticles, in source order. */
  method Configure(model: ArticlesModel, p: FilterParams, env: Environment) returns (fault: Option<Fault>)
    modifies model
    ensures fault.Some? <==> Configured(old(model.state), p, env).Failure?
    ensures fault.Some? ==> fault.value == Configured(old(model.state), p, env).fault
    ensures fault.None? ==> model.state == Configured(old(model.state), p, env).value
  {
    SetBasics(model, p, env);
    fault := SetCategories(model, p, env);
    if fault.Some? {
      return;
    }
    SetOrdering(model, p, env);
    SetContentFilters(model, p);
    fault := SetArticleIds(model, p, env.request);
    if fault.Some? {
      return;
    }
    SetDates(model, p);
    model.SetState(FilterLanguage, env.languageFilter);
  }

  // ---------------------------------------------------------------------------
  // What the configured state says

  /** State name `k` reads the same in `t` as in `s`. */
  predicate Keeps(s: map<StateKey, Value>, t: map<StateKey, Value>, k: StateKey) {
    (k in t <==> k in s) && (k in s ==> t[k] == s[k])
  }

  predicate IsDateFilterKey(k: StateKey) {
    k.DateFiltering? || k.DateField? || k.StartDateRange? || k.EndDateRange? || k.RelativeDate?
  }

  predicate SetByBasics(k: StateKey) {
    || k.AppParams? || k.ListStart? || k.FilterPublished? || k.ListLimit? || k.LoadTags? || k.FilterAccess?
    || k.CategoryInclude?
  }

  predicate SetByContentFilters(k: StateKey) {
    || k.FilterTag? || k.FilterFeatured? || k.AuthorId? || k.AuthorIdInclude? || k.AuthorAlias?
    || k.AuthorAliasInclude? || k.FilterPublished?
  }

  lemma BasicsKeep(s: map<StateKey, Value>, p: FilterParams, env: Environment, k: StateKey)
    requires !SetByBasics(k)
    ensures Keeps(s, WithBasics(s, p, env), k)
  {
  }

  lemma CategoriesKeep(s: map<StateKey, Value>, p: FilterParams, env: Environment, k: StateKey)
    requires k != CategoryId && WithCategories(s, p, env).Success?
    ensures Keeps(s, WithCategories(s, p, env).value, k)
  {
  }

  lemma OrderingKeeps(s: map<StateKey, Value>, p: FilterParams, env: Environment, k: StateKey)
    requires k != ListOrdering && k != ListDirection
    ensures Keeps(s, WithOrdering(s, p, env), k)
  {
  }

  lemma ContentFiltersKeep(s: map<StateKey, Value>, p: FilterParams, k: StateKey)
    requires !SetByContentFilters(k)
    ensures Keeps(s, WithContentFilters(s, p), k)
  {
  }

  lemma ArticleIdsKeep(s: map<StateKey, Value>, p: FilterParams, request: Request, k: StateKey)
    requires k != ArticleId && k != ArticleIdInclude && WithArticleIds(s, p, request).Success?
    ensures Keeps(s, WithArticleIds(s, p, request).value, k)
  {
  }

  lemma DatesKeep(s: map<StateKey, Value>, p: FilterParams, k: StateKey)
    requires !IsDateFilterKey(k)
    ensures Keeps(s, WithDates(s, p), k)
  {
  }

  /** The configured state is the start state taken through the stages of the
      `setState` sequence. */
  lemma ConfiguredStages(start: map<StateKey, Value>, p: FilterParams, env: Environment)
    returns (s0: map<StateKey, Value>, s1: map<StateKey, Value>, s2: map<StateKey, Value>,
             s3: map<StateKey, Value>, s4: map<StateKey, Value>, s5: map<StateKey, Value>)
    requires Configured(start, p, env).Success?
    ensures s0 == WithBasics(start, p, env)
    ensures WithCategories(s0, p, env).Success? && s1 == WithCategories(s0, p, env).value
    ensures s2 == WithOrdering(s1, p, env)
    ensures s3 == WithContentFilters(s2, p)
    ensures WithArticleIds(s3, p, env.request).Success? && s4 == WithArticleIds(s3, p, env.request).value
    ensures s5 == WithDates(s4, p)
    ensures Configured(start, p, env).value == s5[FilterLanguage := env.languageFilter]
  {
    s0 := WithBasics(start, p, env);
    s1 := WithCategories(s0, p, env).value;
    s2 := WithOrdering(s1, p, env);
    s3 := WithContentFilters(s2, p);
    s4 := WithArticleIds(s3, p, env.request).value;
    s5 := WithDates(s4, p);
  }

  /** Archived articles are listed instead of published ones exactly when
      show_archived is the string 'show'. */
  lemma PublishedCondition(start: map<StateKey, Value>, p: FilterParams, env: Environment)
    requires Configured(start, p, env).Success?
    ensures var r := Configured(start, p, env).value;
            && FilterPublished in r
            && r[FilterPublished] == if p.showArchived == Str("show")
                                     then Int(ConditionArchived) else Int(ConditionPublished)
  {
    var s0, s1, s2, s3, s4, s5 := ConfiguredStages(start, p, env);
    CategoriesKeep(s0, p, env, FilterPublished);
    OrderingKeeps(s1, p, env, FilterPublished);
    ArticleIdsKeep(s3, p, env.request, FilterPublished);
    DatesKeep(s4, p, FilterPublished);
  }

  /** A setting made by the first stage and by no later one survives. */
  lemma KeptAfterBasics(s0: map<StateKey, Value>, s1: map<StateKey, Value>, s2: map<StateKey, Value>,
                        s3: map<StateKey, Value>, s4: map<StateKey, Value>, s5: map<StateKey, Value>,
                        p: FilterParams, env: Environment, k: StateKey)
    requires WithCategories(s0, p, env).Success? && s1 == WithCategories(s0, p, env).value
    requires s2 == WithOrdering(s1, p, env)
    requires s3 == WithContentFilters(s2, p)
    requires WithArticleIds(s3, p, env.request).Success? && s4 == WithArticleIds(s3, p, env.request).value
    requires s5 == WithDates(s4, p)
    requires !k.CategoryId? && !k.ListOrdering? && !k.ListDirection?
    requires !SetByContentFilters(k) && !k.ArticleId? && !k.ArticleIdInclude? && !IsDateFilterKey(k)
    ensures Keeps(s0, s5, k)
  {
    CategoriesKeep(s0, p, env, k);
    OrderingKeeps(s1, p, env, k);
    KeptAfterOrdering(s2, s3, s4, s5, p, env.request, k);
  }

  /** A name that no stage before the article id filter sets keeps its start value. */
  lemma KeptBeforeArticleIds(start: map<StateKey, Value>, s0: map<StateKey, Value>, s1: map<StateKey, Value>,
                             s2: map<StateKey, Value>, s3: map<StateKey, Value>,
                             p: FilterParams, env: Environment, k: StateKey)
    requires s0 == WithBasics(start, p, env)
    requires WithCategories(s0, p, env).Success? && s1 == WithCategories(s0, p, env).value
    requires s2 == WithOrdering(s1, p, env)
    requires s3 == WithContentFilters(s2, p)
    requires !SetByBasics(k) && !k.CategoryId? && !k.ListOrdering? && !k.ListDirection? && !SetByContentFilters(k)
    ensures Keeps(start, s3, k)
  {
    BasicsKeep(start, p, env, k);
    CategoriesKeep(s0, p, env, k);
    OrderingKeeps(s1, p, env, k);
    ContentFiltersKeep(s2, p, k);
  }

  /** The paging, count, tag-loading and access settings. */
  lemma BasicSettings(start: map<StateKey, Value>, p: FilterParams, env: Environment)
    requires Configured(start, p, env).Success?
    ensures var r := Configured(start, p, env).value;
            && ListStart in r && r[ListStart] == Int(0)
            && ListLimit in r && r[ListLimit] == Int(ToInt(p.count))
            && LoadTags in r
            && (r[LoadTags] == Bool(true) <==>
                  Truthy(p.showTags) || p.articleGrouping == Str("tags"))
            && FilterAccess in r && (r[FilterAccess] == Bool(true) <==> !Truthy(env.showNoauth))
            && FilterLanguage in r && r[FilterLanguage] == env.languageFilter
  {
    var s0, s1, s2, s3, s4, s5 := ConfiguredStages(start, p, env);
    KeptAfterBasics(s0, s1, s2, s3, s4, s5, p, env, ListStart);
    KeptAfterBasics(s0, s1, s2, s3, s4, s5, p, env, ListLimit);
    KeptAfterBasics(s0, s1, s2, s3, s4, s5, p, env, LoadTags);
    KeptAfterBasics(s0, s1, s2, s3, s4, s5, p, env, FilterAccess);
  }

  /** A non-empty inclusion list decides the article id filter, whatever the
      exclusion list holds. */
  lemma InclusionOverridesExclusion(start: map<StateKey, Value>, p: FilterParams, env: Environment)
    requires Configured(start, p, env).Success?
    requires Truthy(p.includedArticles)
    ensures var r := Configured(start, p, env).value;
            && ArticleId in r && r[ArticleId] == List(StrValues(Explode(ToStr(p.includedArticles))))
            && ArticleIdInclude in r && r[ArticleIdInclude] == Bool(true)
  {
    var s0, s1, s2, s3, s4, s5 := ConfiguredStages(start, p, env);
    DatesKeep(s4, p, ArticleId);
    DatesKeep(s4, p, ArticleIdInclude);
  }

  /** The article id filter after the exclusion list alone has been applied:
      the configured ids, followed by the current article's id when that one is
      excluded too. */
  lemma ExclusionOnly(s: map<StateKey, Value>, p: FilterParams, request: Request)
    requires WithArticleIds(s, p, request).Success?
    requires !Truthy(p.includedArticles)
    requires Truthy(p.excludedArticles) || (Truthy(p.excludeCurrent) && OnArticlePage(request))
    ensures var r := WithArticleIds(s, p, request).value;
            var ids := StrValues(Explode(ToStr(p.excludedArticles)));
            var current := if Truthy(p.excludeCurrent) && OnArticlePage(request)
                           then [Str(NatToString(CurrentId(request)))] else [];
            && ArticleId in r && r[ArticleId] == List(ids + current)
            && ArticleIdInclude in r && r[ArticleIdInclude] == Bool(false)
  {
    var excluded := p.excludedArticles;
    if Truthy(p.excludeCurrent) && OnArticlePage(request) {
      var id := NatToString(CurrentId(request));
      var joined := ToStr(excluded) + "\r\n" + id;
      assert !excluded.Object? by {
        if excluded.Object? {
          assert false;
        }
      }
      assert ToStr(excluded) + ("\r\n" + id) == joined;
      assert ExcludedArticles(p, request) == Success(Str(joined));
      assert Truthy(Str(joined)) by {
        assert joined[|ToStr(excluded)|] == '\r';
      }
      ExplodeAppendId(ToStr(excluded), CurrentId(request));
      assert StrValues(Explode(joined)) == StrValues(Explode(ToStr(excluded))) + [Str(id)];
    } else {
      assert ExcludedArticles(p, request) == Success(excluded);
      assert !excluded.List? && !excluded.Object? by {
        if excluded.List? || excluded.Object? {
          assert false;
        }
      }
      var ids := StrValues(Explode(ToStr(excluded)));
      assert ids + [] == ids;
    }
  }

  /** Without an inclusion list, a non-empty exclusion list, or exclude_current
      on an article page, sets an exclusion filter: the configured list split on
      line breaks, followed by the id of the current article when that one is
      excluded too. */
  lemma ExclusionApplied(start: map<StateKey, Value>, p: FilterParams, env: Environment)
    requires Configured(start, p, env).Success?
    requires !Truthy(p.includedArticles)
    requires Truthy(p.excludedArticles) || (Truthy(p.excludeCurrent) && OnArticlePage(env.request))
    ensures var r := Configured(start, p, env).value;
            var ids := StrValues(Explode(ToStr(p.excludedArticles)));
            var current := if Truthy(p.excludeCurrent) && OnArticlePage(env.request)
                           then [Str(NatToString(CurrentId(env.request)))] else [];
            && ArticleId in r && r[ArticleId] == List(ids + current)
            && ArticleIdInclude in r && r[ArticleIdInclude] == Bool(false)
  {
    var s0, s1, s2, s3, s4, s5 := ConfiguredStages(start, p, env);
    ExclusionOnly(s3, p, env.request);
    DatesKeep(s4, p, ArticleId);
    DatesKeep(s4, p, ArticleIdInclude);
  }

  /** Without an inclusion list and with an empty exclusion list, the article
      id filter is not touched. */
  lemma NoArticleIdFilter(start: map<StateKey, Value>, p: FilterParams, env: Environment)
    requires Configured(start, p, env).Success?
    requires !Truthy(p.includedArticles)
    requires !Truthy(p.excludedArticles)
    requires !(Truthy(p.excludeCurrent) && OnArticlePage(env.request))
    ensures var r := Configured(start, p, env).value;
            Keeps(start, r, ArticleId) && Keeps(start, r, ArticleIdInclude)
  {
    var s0, s1, s2, s3, s4, s5 := ConfiguredStages(start, p, env);
    assert s4 == s3;
    KeptBeforeArticleIds(start, s0, s1, s2, s3, p, env, ArticleId);
    KeptBeforeArticleIds(start, s0, s1, s2, s3, p, env, ArticleIdInclude);
    DatesKeep(s4, p, ArticleId);
    DatesKeep(s4, p, ArticleIdInclude);
  }

  /** A setting that the last three stages do not make survives them. */
  lemma KeptAfterOrdering(s2: map<StateKey, Value>, s3: map<StateKey, Value>, s4: map<StateKey, Value>,
                          s5: map<StateKey, Value>, p: FilterParams, request: Request, k: StateKey)
    requires s3 == WithContentFilters(s2, p)
    requires WithArticleIds(s3, p, request).Success? && s4 == WithArticleIds(s3, p, request).value
    requires s5 == WithDates(s4, p)
    requires !SetByContentFilters(k) && !k.ArticleId? && !k.ArticleIdInclude? && !IsDateFilterKey(k)
    ensures Keeps(s2, s5, k)
  {
    ContentFiltersKeep(s2, p, k);
    ArticleIdsKeep(s3, p, request, k);
    DatesKeep(s4, p, k);
  }

  /** The ordering stage on its own. */
  lemma OrderingStage(s1: map<StateKey, Value>, p: FilterParams, env: Environment)
    ensures var s2 := WithOrdering(s1, p, env);
            var ordering := p.articleOrdering;
            var rating := LooseEqualsLabel(ordering, "rating_count") || LooseEqualsLabel(ordering, "rating");
            && ListOrdering in s2
            && (LooseEqualsLabel(ordering, "random") ==>
                  s2[ListOrdering] == Object("rand") && Keeps(s1, s2, ListDirection))
            && (!LooseEqualsLabel(ordering, "random") ==>
                  && ListDirection in s2 && s2[ListDirection] == p.articleOrderingDirection
                  && s2[ListOrdering] == if rating && !env.voteEnabled then Str("a.ordering") else ordering)
  {
  }

  /** The ordering: 'random' sets a random order and no direction; the rating
      columns fall back to 'a.ordering' when voting is off; any other value is
      the ordering column, with its direction. */
  lemma OrderingRules(start: map<StateKey, Value>, p: FilterParams, env: Environment)
    requires Configured(start, p, env).Success?
    ensures var r := Configured(start, p, env).value;
            var ordering := p.articleOrdering;
            var direction := p.articleOrderingDirection;
            var rating := LooseEqualsLabel(ordering, "rating_count") || LooseEqualsLabel(ordering, "rating");
            && ListOrdering in r
            && (LooseEqualsLabel(ordering, "random") ==>
                  r[ListOrdering] == Object("rand") && Keeps(start, r, ListDirection))
            && (!LooseEqualsLabel(ordering, "random") ==>
                  && ListDirection in r && r[ListDirection] == direction
                  && r[ListOrdering] == if rating && !env.voteEnabled then Str("a.ordering") else ordering)
  {
    var s0, s1, s2, s3, s4, s5 := ConfiguredStages(start, p, env);
    OrderingStage(s1, p, env);
    KeptAfterOrdering(s2, s3, s4, s5, p, env.request, ListOrdering);
    KeptAfterOrdering(s2, s3, s4, s5, p, env.request, ListDirection);
    BasicsKeep(start, p, env, ListDirection);
    CategoriesKeep(s0, p, env, ListDirection);
  }

  /** The date stage on its own. */
  lemma DatesStage(s4: map<StateKey, Value>, p: FilterParams)
    ensures var s5 := WithDates(s4, p);
            && (p.dateFiltering == Str("off") ==> forall k | IsDateFilterKey(k) :: Keeps(s4, s5, k))
            && (p.dateFiltering != Str("off") ==>
                  && DateFiltering in s5 && s5[DateFiltering] == p.dateFiltering
                  && DateField in s5 && s5[DateField] == p.dateField
                  && StartDateRange in s5 && s5[StartDateRange] == p.startDateRange
                  && EndDateRange in s5 && s5[EndDateRange] == p.endDateRange
                  && RelativeDate in s5 && s5[RelativeDate] == p.relativeDate)
  {
  }

  /** The date filter is set, with its defaults, only when date filtering is
      not 'off'. */
  lemma DateFilterDefaults(start: map<StateKey, Value>, p: FilterParams, env: Environment)
    requires Configured(start, p, env).Success?
    ensures var r := Configured(start, p, env).value;
            var dateFiltering := p.dateFiltering;
            && (dateFiltering == Str("off") ==>
                  forall k | IsDateFilterKey(k) :: Keeps(start, r, k))
            && (dateFiltering != Str("off") ==>
                  && DateFiltering in r && r[DateFiltering] == dateFiltering
                  && DateField in r && r[DateField] == p.dateField
                  && StartDateRange in r && r[StartDateRange] == p.startDateRange
                  && EndDateRange in r && r[EndDateRange] == p.endDateRange
                  && RelativeDate in r && r[RelativeDate] == p.relativeDate)
  {
    var s0, s1, s2, s3, s4, s5 := ConfiguredStages(start, p, env);
    DatesStage(s4, p);
    forall k | IsDateFilterKey(k) ensures Keeps(start, s4, k) {
      KeptBeforeArticleIds(start, s0, s1, s2, s3, p, env, k);
      ArticleIdsKeep(s3, p, env.request, k);
    }
  }

  /** With child categories shown to a positive depth, the category filter is
      the selected ids and their descendants within that depth, once per
      string form, and nothing else. */
  lemma ChildCategoriesExpanded(start: map<StateKey, Value>, p: FilterParams, env: Environment)
    requires Configured(start, p, env).Success?
    requires Truthy(p.catid)
    requires Truthy(p.showChildCategoryArticles) && ToInt(p.levelsChecked) > 0
    ensures p.catid.List?
    ensures var r := Configured(start, p, env).value;
            var xs := p.catid.elems;
            var more := Descendants(xs, env, Depth(p));
            && CategoryId in r && r[CategoryId].List?
            && (forall w | w in r[CategoryId].elems :: w in xs || w in more)
            && (forall v | v in xs + more :: exists w | w in r[CategoryId].elems :: ToStr(w) == ToStr(v))
            && (forall p, q | 0 <= p < q < |r[CategoryId].elems| ::
                  ToStr(r[CategoryId].elems[p]) != ToStr(r[CategoryId].elems[q]))
  {
    var s0, s1, s2, s3, s4, s5 := ConfiguredStages(start, p, env);
    OrderingKeeps(s1, p, env, CategoryId);
    KeptAfterOrdering(s2, s3, s4, s5, p, env.request, CategoryId);
    var xs := p.catid.elems;
    var all := xs + Descendants(xs, env, Depth(p));
    assert s1[CategoryId] == List(Unique(all));
    UniqueWithinList(all);
    UniqueCovers(all);
    UniqueDistinct(all);
  }

  /** Child-category expansion of a selection that is not a list stops
      getArticles with array_merge's type error. */
  lemma CategorySelectionNotList(start: map<StateKey, Value>, p: FilterParams, env: Environment)
    requires Truthy(p.catid) && !p.catid.List?
    requires Truthy(p.showChildCategoryArticles) && ToInt(p.levelsChecked) > 0
    ensures Configured(start, p, env) == Failure(ArrayMergeTypeError)
  {
  }

  /** An object among the selected categories stops getArticles when
      array_unique converts it to a string. */
  lemma CategoryObjectRejected(start: map<StateKey, Value>, p: FilterParams, env: Environment)
    requires p.catid.List? && HoldsObject(p.catid.elems)
    requires Truthy(p.showChildCategoryArticles) && ToInt(p.levelsChecked) > 0
    ensures Configured(start, p, env) == Failure(StringConversionError)
  {
    var xs := p.catid.elems;
    var k :| 0 <= k < |xs| && xs[k].Object?;
    assert (xs + Descendants(xs, env, Depth(p)))[k].Object?;
  }
}
