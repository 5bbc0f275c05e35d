/** An article record as the articles model returns it, with the display
    properties the module adds to it (`None` while a property is unset). */
module Article {
  import opened Php

  datatype Tag = Tag(title: string)

  /** The decoded `images` field of an article. */
  datatype Images = Images(imageIntro: string, imageFulltext: string, floatIntro: string, floatFulltext: string)

  datatype Item = Item(
    // fields loaded by the articles model
    id: nat,
    alias: string,
    title: string,
    catid: int,
    categoryTitle: string,
    categoryLanguage: string,
    author: string,
    created: string,
    modified: string,
    publishUp: string,
    access: int,
    language: string,
    introtext: string,
    hits: nat,
    images: Images,
    tags: seq<Tag>,
    alternativeReadmore: string,
    // properties added by the module
    slug: Option<string>,
    link: Option<string>,
    active: Option<string>,
    displayDate: Option<string>,
    displayCategoryTitle: Option<string>,
    displayCategoryLink: Option<string>,
    displayAuthorName: Option<string>,
    displayHits: Option<string>,
    displayIntrotext: Option<string>,
    imageSrc: Option<string>,
    displayReadmore: Option<string>)

  /** `$item->$name` for a property named at run time; a property the record
      does not have reads as null, which is the empty string here. */
  function Property(item: Item, name: string): string {
    if name == "id" then NatToString(item.id)
    else if name == "alias" then item.alias
    else if name == "title" then item.title
    else if name == "catid" then IntToString(item.catid)
    else if name == "category_title" then item.categoryTitle
    else if name == "author" then item.author
    else if name == "created" then item.created
    else if name == "modified" then item.modified
    else if name == "publish_up" then item.publishUp
    else if name == "language" then item.language
    else if name == "introtext" then item.introtext
    else if name == "hits" then NatToString(item.hits)
    else ""
  }

  /** Preparing an article for display changes none of the properties a
      grouping reads by name. */
  lemma PropertyOfSameArticle(a: Item, b: Item, name: string)
    requires SameArticle(a, b)
    ensures Property(a, name) == Property(b, name)
  {
  }

  /** The fields loaded by the articles model agree, apart from `images`, which
      the module re-encodes. */
  predicate SameArticle(a: Item, b: Item) {
    && a.id == b.id && a.alias == b.alias && a.title == b.title
    && a.catid == b.catid && a.categoryTitle == b.categoryTitle && a.categoryLanguage == b.categoryLanguage
    && a.author == b.author && a.created == b.created && a.modified == b.modified && a.publishUp == b.publishUp
    && a.access == b.access && a.language == b.language && a.introtext == b.introtext
    && a.hits == b.hits && a.tags == b.tags && a.alternativeReadmore == b.alternativeReadmore
  }
}
