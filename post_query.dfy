/**
 * The list-query construction of the `GET /posts` handler: the optional query
 * parameters become the options object handed to `Post.findAll`, with an
 * order, a window (offset and limit) and a `where` filter.
 */
module PostQuery {
  import opened Wrappers
  import opened JsParseInt
  import opened ILike

  /** The query parameters of `GET /posts`; None is a parameter absent from the URL. */
  datatype ListParams = ListParams(
    page: Option<string>,
    pageSize: Option<string>,
    sortBy: Option<string>,
    sortOrder: Option<string>,
    keyword: Option<string>,
    tag: Option<string>)

  /** One `[field, direction]` entry of the `order` option, both copied from the request. */
  datatype OrderTerm = OrderTerm(field: string, direction: string)

  /** `{ attribute: { [Op.iLike]: pattern } }` */
  datatype Clause = ILikeClause(attribute: string, pattern: string)

  /** The keys of the `where` object: the `Op.or` symbol, or an attribute name. */
  datatype WhereKey = OpOr | Attribute(name: string)

  /** `[clause, clause, ...]` under `Op.or`, or a plain value under an attribute (equality). */
  datatype WhereValue = AnyOf(clauses: seq<Clause>) | EqualTo(value: string)

  type Where = map<WhereKey, WhereValue>

  datatype QueryOptions = QueryOptions(order: seq<OrderTerm>, offset: int, limit: int, where: Where)

  /** A stored post, as far as the filter sees it; an absent tag is SQL NULL. */
  datatype Post = Post(title: string, desc: string, tag: Option<string>)

  const DefaultPage := 1
  const DefaultPageSize := 10
  const DefaultSortBy := "createdAt"
  const DefaultSortOrder := "desc"

  /** `n || d` for a number that may be NaN: NaN and 0 are falsy. */
  function NumberOr(n: Option<int>, d: int): (r: int)
    ensures n.Some? && n.value != 0 ==> r == n.value
    ensures n == None || n == Some(0) ==> r == d
    ensures d != 0 ==> r != 0
  {
    if n.Some? && n.value != 0 then n.value else d
  }

  /** `v || d` for a query value: `undefined` and "" are falsy. */
  function StringOr(v: Option<string>, d: string): (r: string)
    ensures v.Some? && v.value != "" ==> r == v.value
    ensures v == None || v == Some("") ==> r == d
    ensures d != "" ==> r != ""
  {
    if v.Some? && v.value != "" then v.value else d
  }

  /** `parseInt(req.query.page) || 1`: the page `parseInt` read, unless that is NaN or 0. */
  function Page(p: ListParams): (r: int)
    ensures r != 0
    ensures r == DefaultPage || Some(r) == ParseInt(ToJsString(p.page))
  {
    NumberOr(ParseInt(ToJsString(p.page)), DefaultPage)
  }

  /** `parseInt(req.query.pageSize) || 10` */
  function PageSize(p: ListParams): (r: int)
    ensures r != 0
    ensures r == DefaultPageSize || Some(r) == ParseInt(ToJsString(p.pageSize))
  {
    NumberOr(ParseInt(ToJsString(p.pageSize)), DefaultPageSize)
  }

  /** `req.query.sortBy || 'createdAt'`: never empty, and either the default or the request's value. */
  function SortBy(p: ListParams): (r: string)
    ensures r != ""
    ensures r == DefaultSortBy || Some(r) == p.sortBy
  {
    StringOr(p.sortBy, DefaultSortBy)
  }

  /** `req.query.sortOrder || 'desc'` */
  function SortOrder(p: ListParams): (r: string)
    ensures r != ""
    ensures r == DefaultSortOrder || Some(r) == p.sortOrder
  {
    StringOr(p.sortOrder, DefaultSortOrder)
  }

  /** `req.query.keyword || ''`: empty exactly when the parameter is absent or empty. */
  function Keyword(p: ListParams): (r: string)
    ensures r == "" <==> p.keyword == None || p.keyword == Some("")
    ensures r != "" ==> Some(r) == p.keyword
  {
    StringOr(p.keyword, "")
  }

  /** `req.query.tag || ''` */
  function Tag(p: ListParams): (r: string)
    ensures r == "" <==> p.tag == None || p.tag == Some("")
    ensures r != "" ==> Some(r) == p.tag
  {
    StringOr(p.tag, "")
  }

  /** The template literal `%${keyword}%`; the keyword is not escaped. */
  function KeywordPattern(keyword: string): (r: string)
    ensures |r| == |keyword| + 2
    ensures r[0] == '%' && r[|r| - 1] == '%'
    ensures r[1..|r| - 1] == keyword
  {
    "%" + keyword + "%"
  }

  /** The `Op.or` value: the same pattern applied to the title and to the description. */
  function KeywordClause(keyword: string): (r: WhereValue)
    ensures r.AnyOf? && |r.clauses| == 2
    ensures r.clauses[0].attribute == "title" && r.clauses[1].attribute == "desc"
    ensures forall c | c in r.clauses :: c.pattern == KeywordPattern(keyword)
  {
    AnyOf([ILikeClause("title", KeywordPattern(keyword)), ILikeClause("desc", KeywordPattern(keyword))])
  }

  /** The `where` object: an `Op.or` entry for a non-empty keyword, a `tag` entry for a non-empty tag. */
  function WhereFor(keyword: string, tag: string): (w: Where)
    ensures w.Keys <= {OpOr, Attribute("tag")}
    ensures OpOr in w <==> keyword != ""
    ensures Attribute("tag") in w <==> tag != ""
  {
    (if keyword != "" then map[OpOr := KeywordClause(keyword)] else map[])
    + (if tag != "" then map[Attribute("tag") := EqualTo(tag)] else map[])
  }

  /** The options object the handler passes to `Post.findAll`. */
  function QueryOptionsFor(p: ListParams): (q: QueryOptions)
    ensures |q.order| == 1 && q.order[0].field != "" && q.order[0].direction != ""
    ensures q.limit != 0
  {
    QueryOptions(
      [OrderTerm(SortBy(p), SortOrder(p))],
      (Page(p) - 1) * PageSize(p),
      PageSize(p),
      WhereFor(Keyword(p), Tag(p)))
  }

  /**
   * The handler's statements: normalise the parameters, build the options
   * with an empty `where`, then add the keyword and the tag entries to that
   * local options value.
   */
  method BuildQueryOptions(p: ListParams) returns (q: QueryOptions)
    ensures q == QueryOptionsFor(p)
  {
    var page := NumberOr(ParseInt(ToJsString(p.page)), DefaultPage);
    var pageSize := NumberOr(ParseInt(ToJsString(p.pageSize)), DefaultPageSize);
    var sortBy := StringOr(p.sortBy, DefaultSortBy);
    var sortOrder := StringOr(p.sortOrder, DefaultSortOrder);
    var keyword := StringOr(p.keyword, "");
    var tag := StringOr(p.tag, "");
    q := QueryOptions([OrderTerm(sortBy, sortOrder)], (page - 1) * pageSize, pageSize, map[]);
    if keyword != "" {
      q := q.(where := q.where[OpOr := KeywordClause(keyword)]);
    }
    if tag != "" {
      q := q.(where := q.where[Attribute("tag") := EqualTo(tag)]);
    }
  }

  // ---------------------------------------------------------------------------
  // What a post must satisfy to be selected by a `where` object

  /** The value of a post's column; None for SQL NULL or an unknown column. */
  function AttributeOf(post: Post, name: string): Option<string> {
    if name == "title" then Some(post.title)
    else if name == "desc" then Some(post.desc)
    else if name == "tag" then post.tag
    else None
  }

  predicate ClauseHolds(post: Post, c: Clause) {
    match AttributeOf(post, c.attribute)
    case None => false
    case Some(v) => Like(v, c.pattern)
  }

  predicate EntryHolds(post: Post, key: WhereKey, v: WhereValue) {
    match (key, v)
    case (OpOr, AnyOf(cs)) => exists c | c in cs :: ClauseHolds(post, c)
    case (Attribute(a), EqualTo(x)) => AttributeOf(post, a) == Some(x)
    case _ => false
  }

  /** The entries of a `where` object are combined with AND. */
  predicate Matches(post: Post, where: Where) {
    forall key | key in where :: EntryHolds(post, key, where[key])
  }

  // ---------------------------------------------------------------------------
  // Properties of the constructed options

  /** With every parameter absent: newest first, the first ten posts, no filter. */
  lemma AllAbsentGivesDefaults()
    ensures QueryOptionsFor(ListParams(None, None, None, None, None, None))
      == QueryOptions([OrderTerm("createdAt", "desc")], 0, 10, map[])
  {
  }

  /**
   * A page given as the decimal rendering of n, followed by any tail that
   * cannot continue the number (as in "2abc"), is page n, except that 0 falls back to 1.
   */
  lemma PageOfNumericPrefix(p: ListParams, n: int, rest: string)
    requires p.page == Some(ToDecimal(n) + rest)
    requires rest == [] || DigitValue(rest[0]) >= 10
    requires n == 0 ==> rest == [] || (rest[0] != 'x' && rest[0] != 'X')
    ensures Page(p) == if n == 0 then 1 else n
  {
    ParseIntReadsNumericPrefix(n, rest);
  }

  /** The same for the page size, which falls back to 10. */
  lemma PageSizeOfNumericPrefix(p: ListParams, n: int, rest: string)
    requires p.pageSize == Some(ToDecimal(n) + rest)
    requires rest == [] || DigitValue(rest[0]) >= 10
    requires n == 0 ==> rest == [] || (rest[0] != 'x' && rest[0] != 'X')
    ensures PageSize(p) == if n == 0 then 10 else n
  {
    ParseIntReadsNumericPrefix(n, rest);
  }

  /** An absent, empty or digit-free page is page 1, and the window starts at 0. */
  lemma NonNumericPageIsFirst(p: ListParams)
    requires p.page == None || forall i :: 0 <= i < |p.page.value| ==> DigitValue(p.page.value[i]) >= 10
    ensures Page(p) == 1
    ensures QueryOptionsFor(p).offset == 0
  {
    if p.page == None {
      ParseIntNaNExamples();
    } else {
      ParseIntWithoutDigits(p.page.value);
    }
  }

  /** Only NaN and 0 fall back: a negative page such as "-3" is kept, and so is its offset. */
  lemma NegativePageIsKept(p: ListParams)
    requires p.page == Some("-3")
    ensures Page(p) == -3
    ensures QueryOptionsFor(p).offset == -4 * PageSize(p)
  {
  }

  /** The limit is the normalised page size, never 0, and the offset skips the earlier pages. */
  lemma WindowOfQuery(p: ListParams)
    ensures QueryOptionsFor(p).limit == PageSize(p) != 0
    ensures Page(p) != 0
    ensures QueryOptionsFor(p).offset == (Page(p) - 1) * QueryOptionsFor(p).limit
    ensures Page(p) == 1 ==> QueryOptionsFor(p).offset == 0
  {
  }

  /** `?page=2&pageSize=5` asks for offset 5 and limit 5. */
  lemma SecondPageOfFive(p: ListParams)
    requires p.page == Some("2") && p.pageSize == Some("5")
    ensures QueryOptionsFor(p).offset == 5 && QueryOptionsFor(p).limit == 5
  {
  }

  /** `?page=2abc` is page 2: only the numeric prefix counts. */
  lemma PageWithTrailingText(p: ListParams)
    requires p.page == Some("2abc")
    ensures Page(p) == 2
  {
    assert "2abc" == ToDecimal(2) + "abc";
    PageOfNumericPrefix(p, 2, "abc");
  }

  /** The order is the one pair `[sortBy, sortOrder]`; a non-empty value is copied unchanged. */
  lemma OrderOfQuery(p: ListParams)
    ensures QueryOptionsFor(p).order == [OrderTerm(SortBy(p), SortOrder(p))]
    ensures SortBy(p) == if p.sortBy == None || p.sortBy == Some("") then "createdAt" else p.sortBy.value
    ensures SortOrder(p) == if p.sortOrder == None || p.sortOrder == Some("") then "desc" else p.sortOrder.value
  {
  }

  /** The `where` object has an `Op.or` entry exactly for a non-empty keyword and a `tag` entry exactly for a non-empty tag. */
  lemma WhereEntriesOfQuery(p: ListParams)
    ensures QueryOptionsFor(p).where.Keys <= {OpOr, Attribute("tag")}
    ensures OpOr in QueryOptionsFor(p).where <==> p.keyword.Some? && p.keyword.value != ""
    ensures OpOr in QueryOptionsFor(p).where ==>
      QueryOptionsFor(p).where[OpOr] == AnyOf([
        ILikeClause("title", "%" + p.keyword.value + "%"),
        ILikeClause("desc", "%" + p.keyword.value + "%")])
    ensures Attribute("tag") in QueryOptionsFor(p).where <==> p.tag.Some? && p.tag.value != ""
    ensures Attribute("tag") in QueryOptionsFor(p).where ==>
      QueryOptionsFor(p).where[Attribute("tag")] == EqualTo(p.tag.value)
  {
  }

  /** Setting the keyword changes neither the tag entry nor the order or the window. */
  lemma KeywordLeavesRestAlone(p: ListParams, keyword: Option<string>)
    ensures var q, q' := QueryOptionsFor(p), QueryOptionsFor(p.(keyword := keyword));
      && q'.order == q.order && q'.offset == q.offset && q'.limit == q.limit
      && (Attribute("tag") in q'.where <==> Attribute("tag") in q.where)
      && (Attribute("tag") in q.where ==> q'.where[Attribute("tag")] == q.where[Attribute("tag")])
  {
  }

  /** Setting the tag changes neither the keyword entry nor the order or the window. */
  lemma TagLeavesRestAlone(p: ListParams, tag: Option<string>)
    ensures var q, q' := QueryOptionsFor(p), QueryOptionsFor(p.(tag := tag));
      && q'.order == q.order && q'.offset == q.offset && q'.limit == q.limit
      && (OpOr in q'.where <==> OpOr in q.where)
      && (OpOr in q.where ==> q'.where[OpOr] == q.where[OpOr])
  {
  }

  // ---------------------------------------------------------------------------
  // What the filter selects

  predicate KeywordHolds(post: Post, keyword: string) {
    keyword == "" || Like(post.title, KeywordPattern(keyword)) || Like(post.desc, KeywordPattern(keyword))
  }

  predicate TagHolds(post: Post, tag: string) {
    tag == "" || post.tag == Some(tag)
  }

  /** A post is selected exactly when it passes the keyword test and the tag test. */
  lemma MatchesQuery(p: ListParams, post: Post)
    ensures Matches(post, QueryOptionsFor(p).where) <==> KeywordHolds(post, Keyword(p)) && TagHolds(post, Tag(p))
  {
    var k, t := Keyword(p), Tag(p);
    var w := WhereFor(k, t);
    if k != "" {
      assert OpOr in w && w[OpOr] == KeywordClause(k);
      var cs := KeywordClause(k).clauses;
      assert ClauseHolds(post, cs[0]) <==> Like(post.title, KeywordPattern(k));
      assert ClauseHolds(post, cs[1]) <==> Like(post.desc, KeywordPattern(k));
      assert EntryHolds(post, OpOr, w[OpOr]) <==> KeywordHolds(post, k);
    }
    if t != "" {
      assert Attribute("tag") in w && w[Attribute("tag")] == EqualTo(t);
      assert EntryHolds(post, Attribute("tag"), w[Attribute("tag")]) <==> TagHolds(post, t);
    }
    assert w.Keys == (if k != "" then {OpOr} else {}) + (if t != "" then {Attribute("tag")} else {});
  }

  /**
   * For a keyword without `%`, `_` or backslash, the keyword test is a
   * case-insensitive substring search in the title or the description.
   */
  lemma MatchesLiteralKeyword(p: ListParams, post: Post)
    requires AllLiteral(Keyword(p))
    ensures Matches(post, QueryOptionsFor(p).where) <==>
      && (Keyword(p) == "" || ContainsIgnoringCase(post.title, Keyword(p)) || ContainsIgnoringCase(post.desc, Keyword(p)))
      && (Tag(p) == "" || post.tag == Some(Tag(p)))
  {
    MatchesQuery(p, post);
    LikeContainsPattern(post.title, Keyword(p));
    LikeContainsPattern(post.desc, Keyword(p));
  }

  /** The keyword is not escaped: `?keyword=%` selects every post. */
  lemma PercentKeywordSelectsAll(p: ListParams, post: Post)
    requires p.keyword == Some("%") && p.tag == None
    ensures Matches(post, QueryOptionsFor(p).where)
  {
    MatchesQuery(p, post);
    assert KeywordPattern("%") == "%%%";
    PercentMatchesEverything(post.title);
  }

  /** `?keyword=foo` selects "Food diary" by its title, ignoring case. */
  lemma KeywordFooMatchesTitle(p: ListParams)
    requires p.keyword == Some("foo") && p.tag == None
    ensures Matches(Post("Food diary", "x", None), QueryOptionsFor(p).where)
  {
    assert AllLiteral("foo");
    MatchesLiteralKeyword(p, Post("Food diary", "x", None));
    assert OccursAt("Food diary", "foo", 0);
  }

  /** `?keyword=foo` selects "contains FOO here" by its description, ignoring case. */
  lemma KeywordFooMatchesDesc(p: ListParams)
    requires p.keyword == Some("foo") && p.tag == None
    ensures Matches(Post("x", "contains FOO here", None), QueryOptionsFor(p).where)
  {
    assert AllLiteral("foo");
    MatchesLiteralKeyword(p, Post("x", "contains FOO here", None));
    assert OccursAt("contains FOO here", "foo", 9);
  }

  /** `?keyword=foo` excludes a post that has "foo" in neither field. */
  lemma KeywordFooExcludesOthers(p: ListParams)
    requires p.keyword == Some("foo") && p.tag == None
    ensures !Matches(Post("Tea", "hot", None), QueryOptionsFor(p).where)
  {
    assert AllLiteral("foo");
    MatchesLiteralKeyword(p, Post("Tea", "hot", None));
    MissingFirstCharacter("Tea", "foo");
    MissingFirstCharacter("hot", "foo");
  }

  /** `?tag=diet` selects the tag "diet" only: not "Diet", not "diet-plan", not a post without a tag. */
  lemma TagDietExamples(p: ListParams, title: string, desc: string)
    requires p.tag == Some("diet") && p.keyword == None
    ensures Matches(Post(title, desc, Some("diet")), QueryOptionsFor(p).where)
    ensures !Matches(Post(title, desc, Some("Diet")), QueryOptionsFor(p).where)
    ensures !Matches(Post(title, desc, Some("diet-plan")), QueryOptionsFor(p).where)
    ensures !Matches(Post(title, desc, None), QueryOptionsFor(p).where)
  {
    MatchesQuery(p, Post(title, desc, Some("diet")));
    MatchesQuery(p, Post(title, desc, Some("Diet")));
    MatchesQuery(p, Post(title, desc, Some("diet-plan")));
    MatchesQuery(p, Post(title, desc, None));
  }
}
