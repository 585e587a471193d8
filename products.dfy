/** The product history kept in the context file (routes/openai.js): for each
    access token, the products created with it, oldest first. The current
    product of a token is the last one. */
module Products {
  import opened Fallback

  /** A chapter written for a product. */
  datatype Chapter = Chapter(title: string, content: string)

  /** A product as `/generateTOC` creates it. `chapters` is keyed by the
      chapter number as the client sent it; object keys in JavaScript are
      strings. */
  datatype Product = Product(
    productTitle: string,
    niche: string,
    tableOfContents: TableOfContents,
    chapters: map<string, Chapter>,
    createdAt: string)

  /** The context file: token to product history. */
  type Context = map<string, seq<Product>>

  const GuideSuffix := " Guide"

  /** `context[token]`, read as the empty history when the token has none. */
  function HistoryOf(context: Context, token: string): (h: seq<Product>)
    ensures token !in context ==> h == []
    ensures token in context ==> h == context[token]
  {
    if token in context then context[token] else []
  }

  /** The product `/generateTOC` records for `niche`: titled after the niche,
      with the table of contents just produced and no chapters yet. */
  function NewProduct(niche: string, toc: TableOfContents, now: string): (p: Product)
    ensures p.productTitle == niche + GuideSuffix && p.niche == niche
    ensures p.tableOfContents == toc && p.chapters == map[] && p.createdAt == now
  {
    Product(niche + GuideSuffix, niche, toc, map[], now)
  }

  /** `context[token].push(product)`, after a missing history has been
      replaced by an empty one: the token's history grows by `product` at the
      end, and every other token's history stays as it was. */
  function AppendProduct(context: Context, token: string, product: Product): (c: Context)
    ensures c.Keys == context.Keys + {token}
    ensures HistoryOf(c, token) == HistoryOf(context, token) + [product]
    ensures forall t :: t in context && t != token ==> c[t] == context[t]
  {
    context[token := HistoryOf(context, token) + [product]]
  }

  /** The chapter write of `/generateChapter`: with a non-empty history, the
      chapter is stored under `key` in the last product, replacing what was
      there; with an empty history nothing changes. */
  function WriteChapter(context: Context, token: string, key: string, chapter: Chapter): (c: Context)
    ensures HistoryOf(context, token) == [] ==> c == context
    ensures c.Keys == context.Keys
    ensures forall t :: t in context && t != token ==> c[t] == context[t]
    ensures |HistoryOf(c, token)| == |HistoryOf(context, token)|
    ensures HistoryOf(context, token) != [] ==>
      var h, h' := HistoryOf(context, token), HistoryOf(c, token);
      && h'[..|h'| - 1] == h[..|h| - 1]
      && h'[|h'| - 1] == h[|h| - 1].(chapters := h[|h| - 1].chapters[key := chapter])
  {
    var h := HistoryOf(context, token);
    if h == [] then context
    else
      var last := h[|h| - 1];
      context[token := h[..|h| - 1] + [last.(chapters := last.chapters[key := chapter])]]
  }

  /** The token's current product: the last one in its history. */
  function Current(context: Context, token: string): (p: Product)
    requires HistoryOf(context, token) != []
    ensures p in HistoryOf(context, token)
  {
    var h := HistoryOf(context, token);
    h[|h| - 1]
  }

  /** The product a table of contents has just created is the current one. */
  lemma CurrentAfterAppend(context: Context, token: string, product: Product)
    ensures HistoryOf(AppendProduct(context, token, product), token) != []
    ensures Current(AppendProduct(context, token, product), token) == product
  {
  }

  // ------------------------------------------------------------ properties

  /** Products are only ever added: after a run of `/generateTOC` calls for
      one token, its history is the old history followed by the new products,
      in the order they were created. */
  function AppendAll(context: Context, token: string, products: seq<Product>): Context
    decreases |products|
  {
    if products == [] then context
    else AppendAll(AppendProduct(context, token, products[0]), token, products[1..])
  }

  lemma {:induction false} AppendAllAccumulates(context: Context, token: string, products: seq<Product>)
    ensures HistoryOf(AppendAll(context, token, products), token) == HistoryOf(context, token) + products
    ensures forall t :: t in context && t != token ==>
      t in AppendAll(context, token, products) && AppendAll(context, token, products)[t] == context[t]
    decreases |products|
  {
    if products != [] {
      var c := AppendProduct(context, token, products[0]);
      AppendAllAccumulates(c, token, products[1..]);
      assert HistoryOf(context, token) + [products[0]] + products[1..] == HistoryOf(context, token) + products;
    }
  }

  /** A chapter always lands in the product created last: right after a new
      table of contents, it goes into the new product, and the product before
      it keeps its chapters. */
  lemma ChapterGoesToNewestProduct(context: Context, token: string, product: Product, key: string, chapter: Chapter)
    ensures var c := WriteChapter(AppendProduct(context, token, product), token, key, chapter);
      && HistoryOf(c, token) == HistoryOf(context, token) + [product.(chapters := product.chapters[key := chapter])]
  {
    var c0 := AppendProduct(context, token, product);
    var c := WriteChapter(c0, token, key, chapter);
    var h := HistoryOf(context, token);
    assert HistoryOf(c0, token)[..|h|] == h;
    assert HistoryOf(c, token) == HistoryOf(c, token)[..|h|] + [HistoryOf(c, token)[|h|]];
  }

  /** Writing the same chapter key twice keeps only the second write. */
  lemma RewriteChapterOverwrites(context: Context, token: string, key: string, first: Chapter, second: Chapter)
    ensures WriteChapter(WriteChapter(context, token, key, first), token, key, second)
         == WriteChapter(context, token, key, second)
  {
    var h := HistoryOf(context, token);
    if h != [] {
      var c1 := WriteChapter(context, token, key, first);
      var h1 := HistoryOf(c1, token);
      assert h1[..|h1| - 1] == h[..|h| - 1];
      var last := h[|h| - 1];
      assert last.chapters[key := first][key := second] == last.chapters[key := second];
    }
  }

  /** Chapter writes under different keys do not disturb each other. */
  lemma ChapterWritesCommute(context: Context, token: string, k1: string, c1: Chapter, k2: string, c2: Chapter)
    requires k1 != k2
    ensures WriteChapter(WriteChapter(context, token, k1, c1), token, k2, c2)
         == WriteChapter(WriteChapter(context, token, k2, c2), token, k1, c1)
  {
    var h := HistoryOf(context, token);
    if h != [] {
      var a := WriteChapter(context, token, k1, c1);
      var b := WriteChapter(context, token, k2, c2);
      var ha, hb := HistoryOf(a, token), HistoryOf(b, token);
      assert ha[..|ha| - 1] == h[..|h| - 1] == hb[..|hb| - 1];
      var last := h[|h| - 1];
      assert last.chapters[k1 := c1][k2 := c2] == last.chapters[k2 := c2][k1 := c1];
    }
  }
}
