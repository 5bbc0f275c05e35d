# mod_articles: the articles helper, modelled in Dafny

This project models `ArticlesHelper` of Joomla's `mod_articles` site module
(`modules/mod_articles/src/Helper/ArticlesHelper.php`). Its `getArticles` does four things:

- It configures an instance of com_content's articles model from the module parameters, through a sequence of `setState` calls. These cover the category filter with optional child categories, the ordering, the tag, featured and author filters, the archived condition, the article id include/exclude lists, the date filter and the language.
- It loads the articles.
- It prepares every article for display, in place: the slug, a link gated by view access, the `active` flag, the display fields selected by the `show_*` switches, the intro text and the intro/full image.
- Optionally, it groups the list with one of the static helpers:
  - `groupBy`, by author or category title;
  - `groupByDate`, by year or year-month;
  - `groupByTags`, by tag title.

  Each helper fills an ordered dictionary in a loop and sorts it by key with `ksort` or `krsort`.

Modules:

| file | module | what |
|---|---|---|
| php.dfy | `Php` | PHP values (`Value`), truthiness, `(int)` and `(string)` casts, loose `switch` comparison with a label, string concatenation, `explode("\r\n", …)`, the key order of `ksort` |
| ordered_array.dfy | `OrderedArray` | PHP ordered arrays as a sequence of `Group(key, bucket)` with distinct keys; `$a[$k] = …` (`Assign`), `unset` (`Unset`), `ksort`/`krsort` (`KSort`, an insertion sort) |
| article.dfy | `Article` | the article record and the properties the module adds to it; `$item->$name` |
| grouping.dfy | `Grouping` | `groupBy`, `groupByDate`, `groupByTags` as methods with loops, proved against partition and tag-grouping predicates |
| filter_state.dfy | `FilterState` | the articles model as a class with a `state` map and `setState`; the `setState` sequence as methods, each tied to a state-transformer function; the properties of the configured state |
| display.dfy | `Display` | the `foreach ($items as &$item)` display loop over an `array<Item>` |
| articles.dfy | `Articles` | the grouping dispatch and `getArticles` as a whole |

Model-state names such as `filter.article_id` are the constructors of `FilterState.StateKey`. `Name()` gives the string for each of them.

Module parameters are read as Joomla's `Registry::get` reads them: a parameter that is absent, null or the empty string reads as the default given at the call. `(int)` follows PHP 8's cast of numeric prefixes: leading white space, a sign, a fraction and an exponent are read, and the value is truncated toward zero.

Collaborators are parameters:
- `Environment` carries the application parameters, com_content's `show_noauth`, the user's view levels, whether the vote plugin is enabled, the language filter, the request, the first login menu item, and the categories model's answers.
- `Services` carries routing, base64, date formatting, content preparation, truncation, image stripping and escaping.
- `fetch` stands for `getItems()`.

## Model

| member | source | states |
|---|---|---|
| Php.ExplodeAppendId | modules/mod_articles/src/Helper/ArticlesHelper.php:159-163 | appending "\r\n" and a decimal id to a list makes that id the last piece of `explode("\r\n", …)`, after the pieces of the list |
| Php.ExplodeJoin | modules/mod_articles/src/Helper/ArticlesHelper.php:159-163 | exploding two strings joined by the separator gives the pieces of the first followed by those of the second |
| Php.NatToStringRoundTrip | modules/mod_articles/src/Helper/ArticlesHelper.php:159 | the decimal string of an id reads back as that id under `(int)` |
| Php.IntToStringRoundTrip | modules/mod_articles/src/Helper/ArticlesHelper.php:67 | `(int)` reads every integer back from its decimal string, negative ones included |
| Php.SignAndSpace | modules/mod_articles/src/Helper/ArticlesHelper.php:80 | `(int)` of a string skips leading white space, ignores a plus sign and negates after a minus sign |
| Php.FractionCast | modules/mod_articles/src/Helper/ArticlesHelper.php:80 | `(int)` of a decimal fraction truncates it to its whole digits |
| Php.NonZeroIsTruthy | modules/mod_articles/src/Helper/ArticlesHelper.php:80-84 | a value whose `(int)` cast is not zero is truthy; "" and "0" cast to 0 |
| Php.Explode | modules/mod_articles/src/Helper/ArticlesHelper.php:163 | `explode("\r\n", …)` always yields at least one piece |
| Php.LessTotal | modules/mod_articles/src/Helper/ArticlesHelper.php:361 | the key order used by `ksort` is total on distinct keys |
| Php.LessTransitive | modules/mod_articles/src/Helper/ArticlesHelper.php:361 | the key order is transitive |
| Php.LessIrreflexive | modules/mod_articles/src/Helper/ArticlesHelper.php:361 | no key precedes itself |
| OrderedArray.Assign | modules/mod_articles/src/Helper/ArticlesHelper.php:348-356 | `$grouped[$k] = $b` replaces the bucket of an existing key in place, or appends a new group at the end; keys stay distinct and every other group is unchanged |
| OrderedArray.Unset | modules/mod_articles/src/Helper/ArticlesHelper.php:425 | unsetting a key that is absent leaves the dictionary as it is |
| OrderedArray.UnsetMembers | modules/mod_articles/src/Helper/ArticlesHelper.php:425 | `unset($grouped[$k])` keeps exactly the groups whose key is not `k` |
| OrderedArray.UnsetAt | modules/mod_articles/src/Helper/ArticlesHelper.php:425 | with distinct keys, unsetting a present key cuts out exactly its group and keeps the order of the rest |
| OrderedArray.LookupAssign | modules/mod_articles/src/Helper/ArticlesHelper.php:348-356 | after `$grouped[$k] = $b`, key `k` reads `b` and every other key reads as before |
| OrderedArray.KSort | modules/mod_articles/src/Helper/ArticlesHelper.php:361 | sorting returns a permutation of the groups (same multiset) |
| OrderedArray.InsertSorted | modules/mod_articles/src/Helper/ArticlesHelper.php:361 | inserting a group with a new key into a strictly ordered dictionary keeps it strictly ordered |
| OrderedArray.KSortSorted | modules/mod_articles/src/Helper/ArticlesHelper.php:361 | `ksort` orders distinct keys ascending and `krsort` orders them descending |
| OrderedArray.KSortSameGroups | modules/mod_articles/src/Helper/ArticlesHelper.php:361 | sorting keeps exactly the same groups, with each bucket untouched |
| OrderedArray.SortedKeysDistinct | modules/mod_articles/src/Helper/ArticlesHelper.php:361 | a dictionary ordered strictly by key has distinct keys |
| Grouping.AddItemKeepsPartition | modules/mod_articles/src/Helper/ArticlesHelper.php:347-359 | one loop step, which creates the bucket if its key is new and then appends the item under its list key, extends the partition from the first n items to the first n+1 |
| Grouping.Bucketize | modules/mod_articles/src/Helper/ArticlesHelper.php:347-359 | the grouping loop yields a partition of the list: distinct keys, every item once in the bucket of its own key under its list key, buckets in input order, no empty bucket |
| Grouping.GroupBy | modules/mod_articles/src/Helper/ArticlesHelper.php:335-364 | `''` gives an empty result and a single item is a one-element list; the result is the partition by `$item->$fieldName`, storing the item or, with `$fieldNameToKeep`, that property; sorted by key; fails only for a sort function other than ksort/krsort |
| Grouping.PartitionSurvivesSort | modules/mod_articles/src/Helper/ArticlesHelper.php:361 | `ksort`/`krsort` keep the partition and order its keys |
| Grouping.EachItemPlacedOnce | modules/mod_articles/src/Helper/ArticlesHelper.php:347-359 | in a partition, an item's list key occurs in one bucket and once in it |
| Grouping.PartitionKeys | modules/mod_articles/src/Helper/ArticlesHelper.php:347-351 | there is a bucket for a key exactly when some item has that key |
| Grouping.Prefix | modules/mod_articles/src/Helper/ArticlesHelper.php:392-405 | `substr($s, 0, $n)` is the first n characters, or the whole string when it is shorter |
| Grouping.DateWidth | modules/mod_articles/src/Helper/ArticlesHelper.php:392-405 | the date key is 7 characters long when the type loosely equals 'month_year', otherwise 4 |
| Grouping.Relabelled | modules/mod_articles/src/Helper/ArticlesHelper.php:420-426 | relabelling keeps the order and the buckets and replaces each key by its label |
| Grouping.RelabelStepFresh | modules/mod_articles/src/Helper/ArticlesHelper.php:420-426 | with a fresh label, one relabelling step moves the group at the front of the dictionary to its end under that label |
| Grouping.RelabelStepIdentity | modules/mod_articles/src/Helper/ArticlesHelper.php:420-426 | when every label equals its key, one step removes the group it visits |
| Grouping.RelabelGroups | modules/mod_articles/src/Helper/ArticlesHelper.php:420-426 | the relabelling loop keeps keys distinct, and every group it leaves is an original bucket under the label of its key; with fresh, injective labels the result is the relabelled dictionary in sorted order; a format that reproduces every key empties the dictionary |
| Grouping.GroupByDate | modules/mod_articles/src/Helper/ArticlesHelper.php:379-430 | `''` gives an empty result and a single item is a one-element list; the sorted dictionary partitions the items by the 4- or 7-character date prefix, storing each item whole; it is returned as is unless the type is exactly 'month_year', in which case it is relabelled with the formatted dates; fails only for an unknown sort function |
| Grouping.DateKeysArePrefixes | modules/mod_articles/src/Helper/ArticlesHelper.php:391-411 | every date key is a prefix of the date of each article in its bucket, of full width unless the date is shorter |
| Grouping.Numbering | modules/mod_articles/src/Helper/ArticlesHelper.php:453-457 | `$a[] = …` from an empty array numbers the items 0, 1, … in order |
| Grouping.FileTags | modules/mod_articles/src/Helper/ArticlesHelper.php:453-455 | the inner loop files the article once under the title of each of its tags, extending the tag grouping from the articles before it to those and this one |
| Grouping.UntaggedStep | modules/mod_articles/src/Helper/ArticlesHelper.php:456-458 | an article without tags leaves every title's bucket as it was |
| Grouping.TagBucketSnoc | modules/mod_articles/src/Helper/ArticlesHelper.php:452-458 | one more article adds, to each title's bucket, one copy of it per tag with that title, and adds it to the untagged list exactly when it has no tags |
| Grouping.FileTagStep | modules/mod_articles/src/Helper/ArticlesHelper.php:453-455 | filing one tag appends the article to the bucket of that title and leaves every other title's bucket alone |
| Grouping.CollectTags | modules/mod_articles/src/Helper/ArticlesHelper.php:451-459 | the loop files every article under every title of its tags, once per tag, and collects the articles without tags in order |
| Grouping.TagGroupingSurvivesSort | modules/mod_articles/src/Helper/ArticlesHelper.php:461 | sorting keeps the tag buckets and orders their titles |
| Grouping.GroupByTags | modules/mod_articles/src/Helper/ArticlesHelper.php:442-468 | an empty list gives an empty result; the sorted dictionary holds, for every title, the articles carrying it; the untagged articles are then assigned under MOD_ARTICLES_UNTAGGED; fails only for an unknown sort function |
| Grouping.TagBucketMembers | modules/mod_articles/src/Helper/ArticlesHelper.php:452-455 | an article is in a title's bucket exactly when one of its tags has that title |
| Grouping.TitleCountPositive | modules/mod_articles/src/Helper/ArticlesHelper.php:453-455 | an article is filed under a title at least once exactly when some tag has that title |
| Grouping.UntaggedMembers | modules/mod_articles/src/Helper/ArticlesHelper.php:452-457 | an article is in the untagged bucket exactly when it has no tags |
| Grouping.UntaggedBucketLast | modules/mod_articles/src/Helper/ArticlesHelper.php:463-465 | the untagged bucket comes after all sorted tag buckets, unless a tag is itself titled like the untagged bucket: then that tag's bucket, at its sorted position, is replaced by the untagged articles and nothing else moves |
| FilterState.ArticlesModel.constructor | modules/mod_articles/src/Helper/ArticlesHelper.php:55 | a fresh articles model has no state set |
| FilterState.ArticlesModel.SetState | modules/mod_articles/src/Helper/ArticlesHelper.php:60 | `setState` sets one name and leaves the rest of the state alone |
| FilterState.WithinDepthMembers | modules/mod_articles/src/Helper/ArticlesHelper.php:95-101 | a category below a parent is collected exactly when its level is at most `$levels` below the parent's |
| FilterState.DescendantsMembers | modules/mod_articles/src/Helper/ArticlesHelper.php:90-103 | the collected ids are exactly those of categories within the depth below one of the selected categories |
| FilterState.CollectDescendants | modules/mod_articles/src/Helper/ArticlesHelper.php:88-103 | the nested loop collects the descendants within the depth, in visiting order |
| FilterState.UniqueWithinList | modules/mod_articles/src/Helper/ArticlesHelper.php:106 | `array_unique` keeps only values of its input |
| FilterState.UniqueDistinct | modules/mod_articles/src/Helper/ArticlesHelper.php:106 | `array_unique` keeps one value per string form |
| FilterState.UniqueCovers | modules/mod_articles/src/Helper/ArticlesHelper.php:106 | every string form of the input survives `array_unique` |
| FilterState.ExpansionDepth | modules/mod_articles/src/Helper/ArticlesHelper.php:80-84 | whenever `(int) levels > 0` holds, the depth used is that same `levels` value, so the fallback 9999 is never taken |
| FilterState.CategoryObjectRejected | modules/mod_articles/src/Helper/ArticlesHelper.php:106 | an object among the selected categories makes array_unique fail, and getArticles with it |
| FilterState.ReadFilterParams | modules/mod_articles/src/Helper/ArticlesHelper.php:66-187 | each filter parameter that is blank (absent, null or '') reads as the default named in the source: count 0, catid null, ordering 'a.ordering' and 'ASC', exclude_current true, date filtering 'off', the date range bounds and 30 days, and so on; `levels` reads as 0 for the depth test and 1 for the depth when blank, and as the same stored value for both otherwise |
| FilterState.StrValues | modules/mod_articles/src/Helper/ArticlesHelper.php:163-173 | the pieces of `explode` become string values, one per piece, in order |
| FilterState.SetBasics | modules/mod_articles/src/Helper/ArticlesHelper.php:59-76 | the first setState calls make the state `WithBasics` of the old state |
| FilterState.SetCategories | modules/mod_articles/src/Helper/ArticlesHelper.php:75-110 | the category block fails exactly when `WithCategories` does, and otherwise sets the state it describes |
| FilterState.SetOrdering | modules/mod_articles/src/Helper/ArticlesHelper.php:113-135 | the ordering switch makes the state `WithOrdering` of the old state |
| FilterState.SetContentFilters | modules/mod_articles/src/Helper/ArticlesHelper.php:137-149 | the tag, featured, author and archived settings make the state `WithContentFilters` of the old state |
| FilterState.SetArticleIds | modules/mod_articles/src/Helper/ArticlesHelper.php:151-178 | the article id block fails exactly when `WithArticleIds` does, and otherwise sets the state it describes |
| FilterState.SetDates | modules/mod_articles/src/Helper/ArticlesHelper.php:180-188 | the date block makes the state `WithDates` of the old state |
| FilterState.Configure | modules/mod_articles/src/Helper/ArticlesHelper.php:59-191 | the whole setState sequence fails exactly when `Configured` does, and otherwise leaves the state `Configured` describes |
| FilterState.BasicsKeep | modules/mod_articles/src/Helper/ArticlesHelper.php:59-76 | the first stage touches no other state name |
| FilterState.CategoriesKeep | modules/mod_articles/src/Helper/ArticlesHelper.php:79-110 | the category stage touches only `filter.category_id` |
| FilterState.OrderingKeeps | modules/mod_articles/src/Helper/ArticlesHelper.php:113-135 | the ordering stage touches only `list.ordering` and `list.direction` |
| FilterState.ContentFiltersKeep | modules/mod_articles/src/Helper/ArticlesHelper.php:137-149 | the content-filter stage touches only its six names and `filter.published` |
| FilterState.ArticleIdsKeep | modules/mod_articles/src/Helper/ArticlesHelper.php:151-178 | the article id stage touches only `filter.article_id` and `filter.article_id.include` |
| FilterState.DatesKeep | modules/mod_articles/src/Helper/ArticlesHelper.php:180-188 | the date stage touches only the five date names |
| FilterState.ConfiguredStages | modules/mod_articles/src/Helper/ArticlesHelper.php:59-191 | a successful configuration passes through each stage in source order |
| FilterState.KeptAfterBasics | modules/mod_articles/src/Helper/ArticlesHelper.php:59-191 | a name set by none of the stages after the first keeps its value through all of them |
| FilterState.KeptBeforeArticleIds | modules/mod_articles/src/Helper/ArticlesHelper.php:59-149 | a name set by none of the stages before the article id block (the article id and date names among them) keeps its start value up to that block |
| FilterState.KeptAfterOrdering | modules/mod_articles/src/Helper/ArticlesHelper.php:137-191 | a name set by none of the stages after the ordering keeps its value through them |
| FilterState.OrderingStage | modules/mod_articles/src/Helper/ArticlesHelper.php:113-135 | the ordering stage alone: 'random' sets the random expression and leaves the direction; otherwise the ordering, with the rating fallback, and its direction are set |
| FilterState.DatesStage | modules/mod_articles/src/Helper/ArticlesHelper.php:180-188 | the date stage alone sets the five date names exactly when date_filtering is not 'off' and otherwise leaves them |
| FilterState.PublishedCondition | modules/mod_articles/src/Helper/ArticlesHelper.php:147-149 | `filter.published` is the archived condition (2) exactly when show_archived is 'show', and the published condition (1) otherwise |
| FilterState.BasicSettings | modules/mod_articles/src/Helper/ArticlesHelper.php:62-73 | the list start is 0 and the limit is `(int) count`; load_tags is true exactly when show_tags is truthy or article_grouping is 'tags'; the access filter is on exactly when show_noauth is off; the language filter is the application's |
| FilterState.InclusionOverridesExclusion | modules/mod_articles/src/Helper/ArticlesHelper.php:151-178 | a non-empty inclusion list decides the article id filter, with include true, whatever was excluded |
| FilterState.ExclusionOnly | modules/mod_articles/src/Helper/ArticlesHelper.php:151-168 | with no inclusion list and a non-empty exclusion list or exclude_current on an article page, the article id stage sets the pieces of the exclusion list, followed by the current id exactly when that one is excluded, with include false |
| FilterState.ExclusionApplied | modules/mod_articles/src/Helper/ArticlesHelper.php:151-168 | in the configured state, the same cases give the exclusion list split on line breaks, with the current article's id last exactly when exclude_current applies on an article page, and include false |
| FilterState.NoArticleIdFilter | modules/mod_articles/src/Helper/ArticlesHelper.php:151-178 | with both lists empty and the current article not added, the article id filter is left untouched |
| FilterState.OrderingRules | modules/mod_articles/src/Helper/ArticlesHelper.php:113-135 | 'random' sets a random-order expression and no direction; 'rating' and 'rating_count' fall back to 'a.ordering' when voting is off; any other value is the ordering, with its direction |
| FilterState.DateFilterDefaults | modules/mod_articles/src/Helper/ArticlesHelper.php:180-188 | the five date settings are made, with their parameter values or defaults, exactly when date_filtering is not 'off', and are otherwise untouched |
| FilterState.ChildCategoriesExpanded | modules/mod_articles/src/Helper/ArticlesHelper.php:79-110 | with child categories shown to a positive depth, the category filter holds only selected ids and their descendants within the depth, covers every string form of them, and has no duplicate string form |
| FilterState.CategorySelectionNotList | modules/mod_articles/src/Helper/ArticlesHelper.php:106 | a category selection that is not an array stops the expansion with array_merge's type error |
| Display.ReadDisplayParams | modules/mod_articles/src/Helper/ArticlesHelper.php:196-204 | each display parameter that is blank (absent, null or '') reads as its default: the show_* switches 0, date field 'created', date format 'Y-m-d H:i:s', introtext limit 100; `image` and `img_intro_full` read as null |
| Display.LooseZeroCastsToZero | modules/mod_articles/src/Helper/ArticlesHelper.php:263 | an introtext limit equal to 0 under `!=` casts to 0, and for null, booleans and integers the loose test and the cast agree |
| Display.LoginItemIdReadsBack | modules/mod_articles/src/Helper/ArticlesHelper.php:228-237 | the login link's Itemid is empty exactly when there is no login menu item and no positive requesting Itemid, and otherwise reads back as the id chosen, the menu item first |
| Article.PropertyOfSameArticle | modules/mod_articles/src/Helper/ArticlesHelper.php:347 | preparing an article for display leaves every property read by name (`$item->$fieldName`) as it was |
| Display.LinkFor | modules/mod_articles/src/Helper/ArticlesHelper.php:218-239 | the link is the article route when the access filter is on or the article's access level is one of the user's, otherwise the login route returning to the article |
| Display.FieldsFor | modules/mod_articles/src/Helper/ArticlesHelper.php:244-260 | each display field is its value when its switch is on and '' when it is off |
| Display.IntrotextFor | modules/mod_articles/src/Helper/ArticlesHelper.php:262-272 | the intro text is image-stripped whenever `image` is off; otherwise it is prepared when show_introtext is on and the limit is loosely 0, truncated when the limit is non-zero, and left unchanged when show_introtext is off |
| Display.ImageFor | modules/mod_articles/src/Helper/ArticlesHelper.php:275-288 | unless img_intro_full is 'none', the image source is the escaped intro or full image when the article has one, otherwise ''; the shown image gets the module's float class |
| Display.PrepareItem | modules/mod_articles/src/Helper/ArticlesHelper.php:217-291 | one pass of the display loop prepares the article: slug, link, active flag, display fields, intro text, image and read-more text, with every loaded field unchanged |
| Display.PreparedStep | modules/mod_articles/src/Helper/ArticlesHelper.php:217-291 | preparing the next article in place extends the prepared prefix by one and leaves the rest as loaded |
| Display.PrepareItems | modules/mod_articles/src/Helper/ArticlesHelper.php:217-291 | the loop prepares every article of the array in place |
| Display.LinkGate | modules/mod_articles/src/Helper/ArticlesHelper.php:222-239 | the link is the article route when the user may view the article, otherwise a login route whose return value is the base64 of the article route |
| Display.ActiveFlag | modules/mod_articles/src/Helper/ArticlesHelper.php:207-242 | an article is 'active' exactly when its id is the requested article's on a com_content article page, or 0 elsewhere |
| Display.SwitchedOffFieldsBlank | modules/mod_articles/src/Helper/ArticlesHelper.php:256-260 | a display field whose switch is off is blank |
| Articles.ReadGroupingParams | modules/mod_articles/src/Helper/ArticlesHelper.php:294-307 | a blank grouping parameter reads as its default: 'none', 'ksort' (which sorts ascending), 'F Y', 'created' |
| Articles.ModeOf | modules/mod_articles/src/Helper/ArticlesHelper.php:299-317 | groupBy is only called with 'author' or 'category_title' |
| Articles.ModeOfLabels | modules/mod_articles/src/Helper/ArticlesHelper.php:299-317 | each label selects its own case; `true` takes the first case; any other value matches none |
| Articles.GroupItems | modules/mod_articles/src/Helper/ArticlesHelper.php:294-318 | with grouping 'none', no articles or an unknown mode, the list is returned unchanged; otherwise the outcome is the one of the helper the switch selects, which fails only for an unknown sort function |
| Articles.Produce | modules/mod_articles/src/Helper/ArticlesHelper.php:51-321 | the body of getArticles once the parameters are read: a configuration error is returned, otherwise the loaded articles are prepared and grouped |
| Articles.GetArticles | modules/mod_articles/src/Helper/ArticlesHelper.php:51-321 | a configuration error is returned; otherwise every loaded article is prepared for display and the prepared list is grouped as GroupItems describes |
| Articles.NoGroupingPassesThrough | modules/mod_articles/src/Helper/ArticlesHelper.php:294-318 | grouping 'none', no articles or an unknown mode return the list unchanged |
| Articles.PropertyGroupsHoldEveryArticle | modules/mod_articles/src/Helper/ArticlesHelper.php:310-313 | grouping by author or category puts every article once in the group of its value, and nothing else in that group |

## Left out

- Numeric-string keys: PHP turns array keys such as "2023" into integers, which changes `ksort`'s order when numeric and non-numeric keys are mixed. Here keys are strings compared character by character.
- `$direction($grouped)` is modelled for `ksort` and `krsort`, spelled exactly so. Any other callable name is returned as the fault `SortCallNotModelled`; that includes other spellings PHP would accept for the same functions (upper case, a leading backslash).
- Grouping.GroupByTags: does not state that an article with k tags appears k times overall. It states, per title, that the article appears once for each of its tags with that title.
- Grouping.GroupByTags: takes a list of articles. A non-array `$list` (which `foreach` would refuse) is not modelled.
- Grouping.GroupByDate: the month_year labels are a parameter (`Date::format`). Their values, and whether distinct months give distinct labels, are not modelled. A non-injective format can make a later bucket overwrite an earlier one, and the contract does not claim that no article is lost.
- Display.ImageFor: the re-encoding of `images` through `Registry` and `json_encode` is not modelled. The images record stays a record.
- Display.LooseZero: a numeric string is zero when all its digits are. A non-zero numeral too small for a double (such as "1e-400"), which PHP reads as 0.0, is not treated as zero.
- Request values are integers as the input filter returns them. The UINT filter on the current id is its absolute value.
- The categories model (`getItems`, `getParent()->level`), the articles model's `getItems`, routing, base64, `HTMLHelper` date formatting and content preparation, truncation, the image-stripping regular expression, `htmlspecialchars`, the menu lookup, `Access` and `PluginHelper` are parameters. None of them is modelled.
- The random ordering expression is the value `Object("rand")`. The database query builder is not modelled.
- Objects in module parameters are values that are only passed along. Converting one to a string is the fault `StringConversionError` in the exclusion list and in `array_unique`. Where a parameter is used as a property name or a date format (show_date_field, show_date_format, month_year_format, date_grouping_field), an object reads as '' instead of raising that error.
- Php.ToInt: integers are unbounded. PHP's saturation at PHP_INT_MAX and PHP_INT_MIN is not modelled. A numeral with a point or an exponent is read as an exact decimal, not as a double, so rounding past 2^53 and overflow to infinity are not modelled.
- FilterState.Depth: `$levels` is compared as its integer cast. For a string that is not numeric (such as "3abc"), PHP 8 compares the level difference with it as strings instead.
- `array_unique` keeps the first value of each string form. The keys it preserves (the gaps it leaves in the array) are not modelled, because the category filter only reads the values.
- `$item->$name` knows the article fields listed in `Article.Property`. Any other name reads as ''.
