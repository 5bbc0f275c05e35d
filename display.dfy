/** The second half of getArticles: every loaded article is prepared for
    display in place (its slug, its link, the active flag, the display fields
    chosen by the module parameters, the intro or full image). Routing, base64,
    date formatting, content preparation, truncation, image stripping and HTML
    escaping are collaborators and arrive as `Services`. */
module Display {
  import opened Php
  import opened Article
  import opened FilterState

  datatype Services = Services(
    route: string -> string,                           // Route::_()
    articleRoute: (string, int, string) -> string,     // RouteHelper::getArticleRoute(slug, catid, language)
    categoryRoute: (int, string) -> string,            // RouteHelper::getCategoryRoute(catid, language)
    base64: string -> string,                          // base64_encode()
    formatDate: (string, string) -> string,            // HTMLHelper::_('date', value, format)
    prepareContent: string -> string,                  // HTMLHelper::_('content.prepare', text, ...)
    truncate: (string, Value) -> string,               // truncate(text, limit, true, false)
    stripImages: string -> string,                     // removal of <img> tags
    escape: string -> string)                          // htmlspecialchars()

  /** The display parameters, each with the default it is read with. */
  datatype DisplayParams = DisplayParams(
    showDate: Value, showDateField: Value, showDateFormat: Value,
    showCategory: Value, showCategoryLink: Value, showHits: Value, showAuthor: Value,
    showIntrotext: Value, introtextLimit: Value, image: Value, imgIntroFull: Value)

  /** A blank parameter reads as its default; `image` and `img_intro_full` are
      read without one (null). */
  function ReadDisplayParams(params: map<string, Value>): (d: DisplayParams)
    ensures Blank(params, "show_date") ==> d.showDate == Int(0)
    ensures Blank(params, "show_date_field") ==> d.showDateField == Str("created")
    ensures Blank(params, "show_date_format") ==> d.showDateFormat == Str("Y-m-d H:i:s")
    ensures Blank(params, "show_category") ==> d.showCategory == Int(0)
    ensures Blank(params, "show_category_link") ==> d.showCategoryLink == Int(0)
    ensures Blank(params, "show_hits") ==> d.showHits == Int(0)
    ensures Blank(params, "show_author") ==> d.showAuthor == Int(0)
    ensures Blank(params, "show_introtext") ==> d.showIntrotext == Int(0)
    ensures Blank(params, "introtext_limit") ==> d.introtextLimit == Int(100)
    ensures Blank(params, "image") ==> d.image == Null
    ensures Blank(params, "img_intro_full") ==> d.imgIntroFull == Null
  {
    DisplayParams(
      Get(params, "show_date", Int(0)), Get(params, "show_date_field", Str("created")),
      Get(params, "show_date_format", Str("Y-m-d H:i:s")),
      Get(params, "show_category", Int(0)), Get(params, "show_category_link", Int(0)),
      Get(params, "show_hits", Int(0)), Get(params, "show_author", Int(0)),
      Get(params, "show_introtext", Int(0)), Get(params, "introtext_limit", Int(100)),
      Get(params, "image", Null), Get(params, "img_intro_full", Null))
  }

  /** `$v == 0` in PHP 8: null, false, 0 and a numeric string of value zero
      (white space around it allowed, any sign, point or exponent). A string
      that is not numeric is compared with "0" as a string, and never equals it. */
  predicate LooseZero(v: Value) {
    match v
    case Null => true
    case Bool(b) => !b
    case Int(i) => i == 0
    case Str(s) => IsNumeric(s) && forall k | 0 <= k < |ReadNumeral(s).digits| :: ReadNumeral(s).digits[k] == '0'
    case List(_) => false
    case Object(_) => false
  }

  /** A limit equal to 0 casts to 0, and for null, booleans and integers the
      two tests agree. */
  lemma LooseZeroCastsToZero(v: Value)
    ensures LooseZero(v) ==> ToInt(v) == 0
    ensures (v.Null? || v.Bool? || v.Int?) ==> (LooseZero(v) <==> ToInt(v) == 0)
  {
    if v.Str? && LooseZero(v) {
      var n := ReadNumeral(v.s);
      ZerosValue(n.digits);
      ScaleOfZero(n.shift);
    }
  }

  /** The article shown by the page: its id on a com_content article page, 0 elsewhere. */
  function ActiveArticleId(request: Request): int {
    if OnArticlePage(request) then request.id else 0
  }

  function Slug(item: Item): string {
    NatToString(item.id) + ":" + item.alias
  }

  function ArticleLink(item: Item, sv: Services): string {
    sv.route(sv.articleRoute(Slug(item), item.catid, item.language))
  }

  /** `$Itemid` of the login link: the first login menu item, else the
      requesting page's Itemid when positive, else undefined (read as ""). */
  function LoginItemId(env: Environment): string {
    match env.loginMenuItem
    case Some(id) => IntToString(id)
    case None => if env.request.itemId > 0 then IntToString(env.request.itemId) else ""
  }

  /** The login link's Itemid is empty only when there is neither a login menu
      item nor a positive requesting Itemid; otherwise it reads back as the id
      it was chosen from. */
  lemma LoginItemIdReadsBack(env: Environment)
    ensures LoginItemId(env) == "" <==> env.loginMenuItem.None? && env.request.itemId <= 0
    ensures env.loginMenuItem.Some? ==> ToInt(Str(LoginItemId(env))) == env.loginMenuItem.value
    ensures env.loginMenuItem.None? && env.request.itemId > 0 ==> ToInt(Str(LoginItemId(env))) == env.request.itemId
  {
    match env.loginMenuItem
    case Some(id) => IntToStringRoundTrip(id);
    case None => IntToStringRoundTrip(env.request.itemId);
  }

  /** The login route that returns to the article afterwards. */
  function LoginLink(item: Item, env: Environment, sv: Services): string {
    sv.route("index.php?option=com_users&view=login&Itemid=" + LoginItemId(env) + "&return=" + sv.base64(ArticleLink(item, sv)))
  }

  /** Whether the article gets its own link: always when com_content hides
      unauthorised links (`$access`, which also makes the model load only
      articles the user may view), otherwise when its access level is one of
      the user's view levels. */
  predicate MayView(item: Item, access: bool, env: Environment) {
    access || item.access in env.authorised
  }

  /** What the display loop makes of `item`: `r` is `item` prepared for display. */
  ghost predicate Prepared(item: Item, r: Item, d: DisplayParams, access: bool, env: Environment, sv: Services) {
    && SameArticle(item, r)
    && LinkShown(item, r.slug, r.link, r.active, access, env, sv)
    && FieldsShown(item, r.displayDate, r.displayCategoryTitle, r.displayCategoryLink, r.displayAuthorName,
                   r.displayHits, r.displayReadmore, d, sv)
    && IntrotextShown(item, r.displayIntrotext, d, sv)
    && ImageShown(item, r.imageSrc, r.images, d, sv)
  }

  /** The slug, the link (gated by view access) and the active flag. */
  ghost predicate LinkShown(item: Item, slug: Option<string>, link: Option<string>, active: Option<string>,
                            access: bool, env: Environment, sv: Services) {
    && slug == Some(Slug(item))
    && (MayView(item, access, env) ==> link == Some(ArticleLink(item, sv)))
    && (!MayView(item, access, env) ==> link == Some(LoginLink(item, env, sv)))
    && active == Some(if item.id == ActiveArticleId(env.request) then "active" else "")
  }

  /** The display fields: each is its value when switched on and blank otherwise. */
  ghost predicate FieldsShown(item: Item, date: Option<string>, categoryTitle: Option<string>,
                              categoryLink: Option<string>, authorName: Option<string>, hits: Option<string>,
                              readmore: Option<string>, d: DisplayParams, sv: Services) {
    && date == Some(if Truthy(d.showDate)
                    then sv.formatDate(Property(item, ToStr(d.showDateField)), ToStr(d.showDateFormat))
                    else "")
    && categoryTitle == Some(if Truthy(d.showCategory) then item.categoryTitle else "")
    && categoryLink == Some(if Truthy(d.showCategoryLink)
                            then sv.route(sv.categoryRoute(item.catid, item.categoryLanguage))
                            else "")
    && authorName == Some(if Truthy(d.showAuthor) then item.author else "")
    && hits == Some(if Truthy(d.showHits) then NatToString(item.hits) else "")
    && readmore == Some(item.alternativeReadmore)
  }

  /** The intro text: image-stripped when `image` is off, otherwise prepared or
      truncated when show_introtext is on, otherwise left as it was. */
  ghost predicate IntrotextShown(item: Item, text: Option<string>, d: DisplayParams, sv: Services) {
    text == (if !Truthy(d.image) then Some(sv.stripImages(item.introtext))
             else if !Truthy(d.showIntrotext) then item.displayIntrotext
             else if LooseZero(d.introtextLimit) then Some(sv.prepareContent(item.introtext))
             else Some(sv.truncate(item.introtext, d.introtextLimit)))
  }

  /** The image source and float class, untouched when img_intro_full is 'none'. */
  ghost predicate ImageShown(item: Item, src: Option<string>, images: Images, d: DisplayParams, sv: Services) {
    && (d.imgIntroFull == Str("none") ==> src == item.imageSrc && images == item.images)
    && (d.imgIntroFull != Str("none") ==>
          src == Some(ImageSource(item.images, d.imgIntroFull, sv))
          && images == PlacedImages(item.images, d.imgIntroFull))
  }

  /** The escaped intro image ('intro') or full image ('full') when the
      article has one, otherwise "". */
  function ImageSource(images: Images, imgIntroFull: Value, sv: Services): string {
    if imgIntroFull == Str("intro") && Truthy(Str(images.imageIntro)) then sv.escape(images.imageIntro)
    else if imgIntroFull == Str("full") && Truthy(Str(images.imageFulltext)) then sv.escape(images.imageFulltext)
    else ""
  }

  /** The image shown gets the module's float class. */
  function PlacedImages(images: Images, imgIntroFull: Value): Images {
    if imgIntroFull == Str("intro") && Truthy(Str(images.imageIntro)) then images.(floatIntro := "mod-articles-image")
    else if imgIntroFull == Str("full") && Truthy(Str(images.imageFulltext)) then images.(floatFulltext := "mod-articles-image")
    else images
  }

  /** The link step of the loop: the article's own route, or the login route
      returning to it. */
  method LinkFor(item: Item, slug: string, access: bool, env: Environment, sv: Services) returns (link: string)
    requires slug == Slug(item)
    ensures MayView(item, access, env) ==> link == ArticleLink(item, sv)
    ensures !MayView(item, access, env) ==> link == LoginLink(item, env, sv)
  {
    var articleLink := sv.route(sv.articleRoute(slug, item.catid, item.language));
    if access || item.access in env.authorised {
      link := articleLink;
    } else {
      var itemId := "";
      if env.loginMenuItem.Some? {
        itemId := IntToString(env.loginMenuItem.value);
      } else if env.request.itemId > 0 {
        itemId := IntToString(env.request.itemId);
      }
      var returnTo := sv.base64(articleLink);
      link := sv.route("index.php?option=com_users&view=login&Itemid=" + itemId + "&return=" + returnTo);
    }
  }

  /** The display fields of the loop, chosen by the show_* switches. */
  method FieldsFor(item: Item, d: DisplayParams, sv: Services)
    returns (date: Option<string>, categoryTitle: Option<string>, categoryLink: Option<string>,
             authorName: Option<string>, hits: Option<string>)
    ensures date == Some(if Truthy(d.showDate)
                         then sv.formatDate(Property(item, ToStr(d.showDateField)), ToStr(d.showDateFormat))
                         else "")
    ensures categoryTitle == Some(if Truthy(d.showCategory) then item.categoryTitle else "")
    ensures categoryLink == Some(if Truthy(d.showCategoryLink)
                                 then sv.route(sv.categoryRoute(item.catid, item.categoryLanguage))
                                 else "")
    ensures authorName == Some(if Truthy(d.showAuthor) then item.author else "")
    ensures hits == Some(if Truthy(d.showHits) then NatToString(item.hits) else "")
  {
    date, categoryTitle, categoryLink := item.displayDate, item.displayCategoryTitle, item.displayCategoryLink;
    if Truthy(d.showDate) {
      date := Some(sv.formatDate(Property(item, ToStr(d.showDateField)), ToStr(d.showDateFormat)));
    }
    if Truthy(d.showCategory) {
      categoryTitle := Some(item.categoryTitle);
    }
    if Truthy(d.showCategoryLink) {
      categoryLink := Some(sv.route(sv.categoryRoute(item.catid, item.categoryLanguage)));
    }
    authorName := Some(if Truthy(d.showAuthor) then item.author else "");
    categoryTitle := Some(if Truthy(d.showCategory) then item.categoryTitle else "");
    categoryLink := if Truthy(d.showCategoryLink) then categoryLink else Some("");
    date := if Truthy(d.showDate) then date else Some("");
    hits := Some(if Truthy(d.showHits) then NatToString(item.hits) else "");
  }

  /** The intro text shown: prepared, or truncated when a limit is set, when
      show_introtext is on; stripped of images whenever `image` is off,
      which replaces any of these. */
  method IntrotextFor(item: Item, d: DisplayParams, sv: Services) returns (text: Option<string>)
    ensures !Truthy(d.image) ==> text == Some(sv.stripImages(item.introtext))
    ensures Truthy(d.image) && !Truthy(d.showIntrotext) ==> text == item.displayIntrotext
    ensures Truthy(d.image) && Truthy(d.showIntrotext) ==>
              text == Some(if LooseZero(d.introtextLimit) then sv.prepareContent(item.introtext)
                           else sv.truncate(item.introtext, d.introtextLimit))
  {
    text := item.displayIntrotext;
    if Truthy(d.showIntrotext) {
      text := Some(sv.prepareContent(item.introtext));
      if !LooseZero(d.introtextLimit) {
        text := Some(sv.truncate(item.introtext, d.introtextLimit));
      }
    }
    if !Truthy(d.image) {
      text := Some(sv.stripImages(item.introtext));
    }
  }

  /** The image step of the loop: the image source and the images record. */
  method ImageFor(item: Item, d: DisplayParams, sv: Services) returns (src: Option<string>, images: Images)
    ensures d.imgIntroFull == Str("none") ==> src == item.imageSrc && images == item.images
    ensures d.imgIntroFull != Str("none") ==>
              src == Some(ImageSource(item.images, d.imgIntroFull, sv)) && images == PlacedImages(item.images, d.imgIntroFull)
  {
    src, images := item.imageSrc, item.images;
    if d.imgIntroFull != Str("none") {
      src := Some("");
      if d.imgIntroFull == Str("intro") && Truthy(Str(images.imageIntro)) {
        src := Some(sv.escape(images.imageIntro));
        images := images.(floatIntro := "mod-articles-image");
      } else if d.imgIntroFull == Str("full") && Truthy(Str(images.imageFulltext)) {
        src := Some(sv.escape(images.imageFulltext));
        images := images.(floatFulltext := "mod-articles-image");
      }
    }
  }

  /** The body of the display loop for one article. */
  method PrepareItem(item: Item, d: DisplayParams, access: bool, env: Environment, sv: Services) returns (r: Item)
    ensures Prepared(item, r, d, access, env, sv)
  {
    var slug := NatToString(item.id) + ":" + item.alias;
    var link := LinkFor(item, slug, access, env, sv);
    var activeId := if OnArticlePage(env.request) then env.request.id else 0;
    var active := if item.id == activeId then "active" else "";

    var displayDate, displayCategoryTitle, displayCategoryLink, displayAuthorName, displayHits := FieldsFor(item, d, sv);
    var displayIntrotext := IntrotextFor(item, d, sv);
    var imageSrc, images := ImageFor(item, d, sv);

    r := item.(slug := Some(slug), link := Some(link), active := Some(active),
               displayDate := displayDate, displayCategoryTitle := displayCategoryTitle,
               displayCategoryLink := displayCategoryLink, displayAuthorName := displayAuthorName,
               displayHits := displayHits, displayIntrotext := displayIntrotext,
               imageSrc := imageSrc, images := images, displayReadmore := Some(item.alternativeReadmore));
  }

  /** `foreach ($items as &$item)`: every article of the array is prepared in place. */
  method PrepareItems(items: array<Item>, d: DisplayParams, access: bool, env: Environment, sv: Services)
    modifies items
    ensures forall k | 0 <= k < items.Length :: Prepared(old(items[k]), items[k], d, access, env, sv)
  {
    ghost var loaded := items[..];
    var i := 0;
    while i < items.Length
      invariant i <= items.Length
      invariant PreparedUpTo(loaded, items[..], i, d, access, env, sv)
    {
      ghost var before := items[..];
      var prepared := PrepareItem(items[i], d, access, env, sv);
      items[i] := prepared;
      PreparedStep(loaded, before, prepared, i, d, access, env, sv);
      assert items[..] == before[i := prepared];
      i := i + 1;
    }
  }

  /** The first `i` articles of `now` are the prepared `loaded` ones, and the
      rest are as loaded. */
  ghost predicate PreparedUpTo(loaded: seq<Item>, now: seq<Item>, i: nat, d: DisplayParams, access: bool,
                               env: Environment, sv: Services)
  {
    && |now| == |loaded| && i <= |now|
    && (forall k | 0 <= k < i :: Prepared(loaded[k], now[k], d, access, env, sv))
    && now[i..] == loaded[i..]
  }

  lemma PreparedStep(loaded: seq<Item>, before: seq<Item>, r: Item, i: nat, d: DisplayParams,
                     access: bool, env: Environment, sv: Services)
    requires PreparedUpTo(loaded, before, i, d, access, env, sv) && i < |before|
    requires Prepared(before[i], r, d, access, env, sv)
    ensures PreparedUpTo(loaded, before[i := r], i + 1, d, access, env, sv)
  {
    var after := before[i := r];
    forall k | 0 <= k < i + 1 ensures Prepared(loaded[k], after[k], d, access, env, sv) {
      if k < i {
        assert after[k] == before[k];
      } else {
        assert before[i] == before[i..][0] == loaded[i];
      }
    }
    assert after[i + 1..] == before[i + 1..] == before[i..][1..];
  }

  // ---------------------------------------------------------------------------
  // What a prepared article shows

  /** The link is the article's own route when the user may view it, else the
      login route whose return address is the base64 of that route. */
  lemma LinkGate(item: Item, r: Item, d: DisplayParams, access: bool, env: Environment, sv: Services)
    requires Prepared(item, r, d, access, env, sv)
    ensures r.link.Some?
    ensures MayView(item, access, env) ==> r.link.value == ArticleLink(item, sv)
    ensures !MayView(item, access, env) ==>
              exists itemId :: r.link.value == sv.route("index.php?option=com_users&view=login&Itemid=" + itemId
                                                         + "&return=" + sv.base64(ArticleLink(item, sv)))
  {
    if !MayView(item, access, env) {
      assert r.link.value == sv.route("index.php?option=com_users&view=login&Itemid=" + LoginItemId(env)
                                      + "&return=" + sv.base64(ArticleLink(item, sv)));
    }
  }

  /** An article is flagged active exactly when it is the one the page shows;
      off article pages, only an article with id 0 would be. */
  lemma ActiveFlag(item: Item, r: Item, d: DisplayParams, access: bool, env: Environment, sv: Services)
    requires Prepared(item, r, d, access, env, sv)
    ensures r.active == Some("active") <==>
              ((OnArticlePage(env.request) && item.id == env.request.id) || (!OnArticlePage(env.request) && item.id == 0))
  {
  }

  /** A display field whose switch is off is blank. */
  lemma SwitchedOffFieldsBlank(item: Item, r: Item, d: DisplayParams, access: bool, env: Environment, sv: Services)
    requires Prepared(item, r, d, access, env, sv)
    ensures !Truthy(d.showDate) ==> r.displayDate == Some("")
    ensures !Truthy(d.showCategory) ==> r.displayCategoryTitle == Some("")
    ensures !Truthy(d.showCategoryLink) ==> r.displayCategoryLink == Some("")
    ensures !Truthy(d.showAuthor) ==> r.displayAuthorName == Some("")
    ensures !Truthy(d.showHits) ==> r.displayHits == Some("")
  {
  }
}
