/**
 * The retrieved-context rules shared by interface.py, app.py, main.py and
 * tasks.py: shortening each context's text, rendering the list as
 * `Source:/Content:` blocks, and the two "is the context useful" heuristics.
 */
module Contexts {
  import opened PyStr
  import opened Utils

  /** interface.py truncates context texts to 150 characters, app.py to 300. */
  const InterfaceLimit: nat := 150
  const AppLimit: nat := 300
  const Ellipsis: string := "..."

  // ---------------------------------------------------------------------------
  // Shortening

  /** `text[:limit - 3] + "..."` when the text is longer than `limit`, else the text. */
  function Shorten(text: string, limit: nat): (r: string)
    requires limit >= |Ellipsis|
    ensures r == text <==> |text| <= limit
    ensures |r| == Min(|text|, limit)
    ensures |text| > limit ==> r[..limit - 3] == text[..limit - 3] && r[limit - 3..] == Ellipsis
  {
    if |text| > limit then text[..limit - 3] + Ellipsis else text
  }

  /** Shortening an already shortened text changes nothing. */
  lemma ShortenIdempotent(text: string, limit: nat)
    requires limit >= |Ellipsis|
    ensures Shorten(Shorten(text, limit), limit) == Shorten(text, limit)
  {
  }

  function ShortenContext(c: Context, limit: nat): Context
    requires limit >= |Ellipsis|
  {
    Context(Shorten(c.text, limit), c.source)
  }

  /** The list `shortened_contexts`: one entry per context, in order. */
  function ShortenAll(contexts: seq<Context>, limit: nat): (r: seq<Context>)
    requires limit >= |Ellipsis|
    ensures |r| == |contexts|
    ensures forall k :: 0 <= k < |r| ==> r[k].source == contexts[k].source && |r[k].text| <= limit
  {
    seq(|contexts|, k requires 0 <= k < |contexts| => ShortenContext(contexts[k], limit))
  }

  /**
   * The loop that builds `shortened_contexts` (interface.py with limit 150,
   * app.py with limit 300).
   */
  method ShortenContexts(contexts: seq<Context>, limit: nat) returns (shortened: seq<Context>)
    requires limit >= |Ellipsis|
    ensures shortened == ShortenAll(contexts, limit)
  {
    shortened := [];
    for i := 0 to |contexts|
      invariant |shortened| == i
      invariant forall k :: 0 <= k < i ==> shortened[k] == ShortenContext(contexts[k], limit)
    {
      var text := contexts[i].text;
      if |text| > limit {
        text := text[..limit - 3] + Ellipsis;
      }
      shortened := shortened + [Context(text, contexts[i].source)];
    }
  }

  /** Contexts that already fit are kept as they are. */
  lemma ShortenAllKeepsShort(contexts: seq<Context>, limit: nat)
    requires limit >= |Ellipsis|
    requires forall k :: 0 <= k < |contexts| ==> |contexts[k].text| <= limit
    ensures ShortenAll(contexts, limit) == contexts
  {
    var r := ShortenAll(contexts, limit);
    assert forall k :: 0 <= k < |r| ==> r[k] == contexts[k];
  }

  // ---------------------------------------------------------------------------
  // Rendering

  /** One context as prompt text: a "Source: " line with its source, then a "Content: " line with its text. */
  function Block(c: Context): string {
    "Source: " + c.source + "\nContent: " + c.text
  }

  function Blocks(contexts: seq<Context>): seq<string> {
    seq(|contexts|, k requires 0 <= k < |contexts| => Block(contexts[k]))
  }

  /** `context_text`: the blocks joined by a blank line. */
  function Render(contexts: seq<Context>): (r: string)
    ensures r == [] <==> contexts == []
  {
    var blocks := Blocks(contexts);
    if blocks == [] then []
    else
      assert Join(blocks, "\n\n") == blocks[0] || Join(blocks, "\n\n") == blocks[0] + "\n\n" + Join(blocks[1..], "\n\n");
      Join(blocks, "\n\n")
  }

  /** Every context's text and source occur in the rendering. */
  lemma RenderContainsContext(contexts: seq<Context>, k: nat)
    requires k < |contexts|
    ensures Contains(Render(contexts), contexts[k].text)
    ensures Contains(Render(contexts), contexts[k].source)
  {
    var c := contexts[k];
    JoinContainsPart(Blocks(contexts), "\n\n", k);
    assert Block(c) == ("Source: " + c.source + "\nContent: ") + c.text + [];
    ContainsInfix("Source: " + c.source + "\nContent: ", c.text, []);
    assert Block(c) == "Source: " + c.source + ("\nContent: " + c.text);
    ContainsInfix("Source: ", c.source, "\nContent: " + c.text);
    ContainsTransitive(Render(contexts), Block(c), c.text);
    ContainsTransitive(Render(contexts), Block(c), c.source);
  }

  /** A non-empty rendering begins with the first block, hence with "Source: ". */
  lemma RenderStartsWithLabel(contexts: seq<Context>)
    requires contexts != []
    ensures StartsWith(Render(contexts), "Source: ")
  {
    var blocks := Blocks(contexts);
    var r := Render(contexts);
    assert blocks[0] == Block(contexts[0]);
    if |blocks| == 1 {
      assert r == blocks[0];
    } else {
      assert r == blocks[0] + "\n\n" + Join(blocks[1..], "\n\n");
    }
    assert r[..|"Source: "|] == blocks[0][..|"Source: "|];
  }

  // ---------------------------------------------------------------------------
  // Usefulness, token variant (interface.py, app.py)

  /**
   * The rendered contexts are useful when they are longer than 30 characters
   * and at least one whitespace-separated word of the lower-cased query
   * occurs in the lower-cased rendering.
   */
  predicate TokenUseful(rendered: string, query: string) {
    var words := Words(Lower(query));
    |rendered| > 30 && exists k :: 0 <= k < |words| && Contains(Lower(rendered), words[k])
  }

  /** A query made only of whitespace has no tokens, so no context is useful for it. */
  lemma BlankQueryNeverTokenUseful(rendered: string, query: string)
    requires forall k :: 0 <= k < |query| ==> IsSpace(query[k])
    ensures !TokenUseful(rendered, query)
  {
    LowerKeepsSpace(query);
    assert Words(Lower(query)) == [];
  }

  /**
   * The rendering's own label words take part in the match: a query with the
   * token "source" finds every non-empty list of contexts useful once the
   * rendering is longer than 30 characters, whatever the contexts say.
   */
  lemma SourceTokenAlwaysMatches(contexts: seq<Context>, query: string, k: nat)
    requires contexts != [] && |Render(contexts)| > 30
    requires k < |Words(Lower(query))| && Words(Lower(query))[k] == "source"
    ensures TokenUseful(Render(contexts), query)
  {
    var r := Render(contexts);
    RenderStartsWithLabel(contexts);
    assert r == "Source" + r[6..] by {
      assert r[..8] == "Source: ";
    }
    LowerConcat("Source", r[6..]);
    assert Lower("Source") == "source";
    ContainsInfix([], "source", Lower(r[6..]));
    assert [] + "source" + Lower(r[6..]) == Lower(r);
  }

  // ---------------------------------------------------------------------------
  // Usefulness, whole-query variant (main.py, tasks.py)

  /**
   * The contexts are useful when their rendering is longer than 50 characters
   * and the whole lower-cased query occurs in the lower-cased text of at
   * least one context.
   */
  predicate WholeQueryUseful(contexts: seq<Context>, query: string) {
    |Render(contexts)| > 50 &&
    exists k :: 0 <= k < |contexts| && Contains(Lower(contexts[k].text), Lower(query))
  }

  /** The empty string occurs in every text, so an empty query only needs a long rendering. */
  lemma EmptyQueryWholeUseful(contexts: seq<Context>)
    ensures WholeQueryUseful(contexts, []) <==> |Render(contexts)| > 50
  {
    if |Render(contexts)| > 50 {
      assert contexts != [];
      assert StartsWith(Lower(contexts[0].text), Lower([]));
    }
  }

  /**
   * The whole-query test is the stricter one: on the same contexts, a query
   * that is not blank and passes it also passes the token test.
   */
  lemma WholeQueryImpliesTokenUseful(contexts: seq<Context>, query: string, k: nat)
    requires WholeQueryUseful(contexts, query)
    requires k < |query| && !IsSpace(query[k])
    ensures TokenUseful(Render(contexts), query)
  {
    var j :| 0 <= j < |contexts| && Contains(Lower(contexts[j].text), Lower(query));
    var r := Render(contexts);
    var words := Words(Lower(query));
    LowerKeepsSpace(query);
    assert !IsSpace(Lower(query)[k]);
    assert words != [];
    RenderContainsContext(contexts, j);
    ContainsLower(r, contexts[j].text);
    ContainsTransitive(Lower(r), Lower(contexts[j].text), Lower(query));
    ContainsTransitive(Lower(r), Lower(query), words[0]);
  }
}
