/** Rendering of a non-empty list of search results, shared by the search
    endpoint and the search tool: a header, then one numbered block per item,
    then `strip()` of the whole text. */
module Listing {
  import opened Optional
  import opened PyStr
  import opened Provider

  const SnippetLimit: nat := 100
  const Ellipsis := "..."
  const FirstNumber: nat := 1

  /** A long snippet keeps its first 100 characters and gains an ellipsis;
      a snippet of at most 100 characters is shown unchanged. */
  function Clip(snippet: string): (r: string)
    ensures |r| <= SnippetLimit + |Ellipsis|
    ensures |snippet| <= SnippetLimit ==> r == snippet
    ensures |snippet| > SnippetLimit ==>
      |r| == SnippetLimit + |Ellipsis| && r[..SnippetLimit] == snippet[..SnippetLimit]
      && r[SnippetLimit..] == Ellipsis
  {
    if |snippet| > SnippetLimit then snippet[..SnippetLimit] + Ellipsis else snippet
  }

  function TitleOf(item: Item): Shown { item.title.GetOr("No title") }
  function LinkOf(item: Item): Shown { item.link.GetOr("No link") }
  function SnippetOf(item: Item): string { item.snippet.GetOr("") }

  /** `f"{i}. {title}\n{link}\n{snippet}\n\n"` for item number `n`. */
  function Block(n: nat, item: Item): string {
    Decimal(n) + ". " + TitleOf(item) + "\n" + LinkOf(item) + "\n" + Clip(SnippetOf(item)) + "\n\n"
  }

  /** The blocks of `items`, numbered from `first` on. */
  function Blocks(items: seq<Item>, first: nat): string
    decreases |items|
  {
    if items == [] then "" else Block(first, items[0]) + Blocks(items[1..], first + 1)
  }

  /** The stripped listing. It never begins or ends with whitespace, and when
      the header starts with a visible character only the trailing whitespace
      of the last block is lost. */
  function Render(header: string, items: seq<Item>): (r: string)
    ensures Trimmed(r)
    ensures |header| > 0 && !IsSpace(header[0]) && items != [] ==>
      r == header + RStrip(Blocks(items, FirstNumber))
  {
    var body := Blocks(items, FirstNumber);
    if |header| > 0 && !IsSpace(header[0]) && items != [] then
      assert body[0] == Decimal(FirstNumber)[0];
      StripAppend(header, body);
      Strip(header + body)
    else
      Strip(header + body)
  }

  // ------------------------------------------------------------------ layout

  /** The four lines an item occupies: number and title, link, snippet, blank. */
  function ItemLines(n: nat, item: Item): seq<string> {
    [Decimal(n) + ". " + TitleOf(item), LinkOf(item), Clip(SnippetOf(item)), ""]
  }

  /** The item's visible fields contain no line feed, so each stays on its own line. */
  predicate OneLine(item: Item) {
    NoNewline(TitleOf(item)) && NoNewline(LinkOf(item)) && NoNewline(SnippetOf(item))
  }

  lemma DecimalOneLine(n: nat)
    ensures NoNewline(Decimal(n) + ". ")
  {
  }

  lemma ClipOneLine(s: string)
    requires NoNewline(s)
    ensures NoNewline(Clip(s))
  {
  }

  /** The block is exactly the item's four lines, each ended by a line feed. */
  lemma BlockIsLines(n: nat, item: Item)
    ensures Block(n, item) == Unlines(ItemLines(n, item))
  {
    var ls := ItemLines(n, item);
    assert Unlines(ls[3..]) == "" + "\n" + Unlines([]);
    assert Unlines(ls[2..]) == ls[2] + "\n" + Unlines(ls[3..]);
    assert Unlines(ls[1..]) == ls[1] + "\n" + Unlines(ls[2..]);
    assert Unlines(ls) == ls[0] + "\n" + Unlines(ls[1..]);
  }

  /** The lines of the blocks numbered from `first`, item after item. */
  function ListingLines(items: seq<Item>, first: nat): (ls: seq<string>)
    ensures |ls| == 4 * |items|
    decreases |items|
  {
    if items == [] then [] else ItemLines(first, items[0]) + ListingLines(items[1..], first + 1)
  }

  lemma {:induction false} BlocksAreLines(items: seq<Item>, first: nat)
    ensures Blocks(items, first) == Unlines(ListingLines(items, first))
    decreases |items|
  {
    if items != [] {
      BlockIsLines(first, items[0]);
      BlocksAreLines(items[1..], first + 1);
      UnlinesAppend(ItemLines(first, items[0]), ListingLines(items[1..], first + 1));
    }
  }

  /** Lines `4k` to `4k + 3` belong to item `k`, which carries number `first + k`. */
  lemma {:induction false} ListingLinesAt(items: seq<Item>, first: nat, k: nat)
    requires k < |items|
    ensures ListingLines(items, first)[4 * k..4 * k + 4] == ItemLines(first + k, items[k])
    decreases k
  {
    var here := ItemLines(first, items[0]);
    var later := ListingLines(items[1..], first + 1);
    if k == 0 {
      SliceOfAppend(here, later, 0, 4);
      assert here[0..4] == here;
    } else {
      ListingLinesAt(items[1..], first + 1, k - 1);
      SliceOfAppend(here, later, 4 * k, 4 * k + 4);
    }
  }

  lemma {:induction false} ListingLinesOneLine(items: seq<Item>, first: nat)
    requires forall j :: 0 <= j < |items| ==> OneLine(items[j])
    ensures forall i :: 0 <= i < |ListingLines(items, first)| ==> NoNewline(ListingLines(items, first)[i])
    decreases |items|
  {
    if items != [] {
      DecimalOneLine(first);
      ClipOneLine(SnippetOf(items[0]));
      ListingLinesOneLine(items[1..], first + 1);
    }
  }

  /** Read line by line, the blocks are item `k`'s number `first + k` and
      title, its link, its clipped snippet and a blank line, for each item in
      order, then the empty text after the last line feed. */
  lemma BlocksLayout(items: seq<Item>, first: nat, k: nat)
    requires forall j :: 0 <= j < |items| ==> OneLine(items[j])
    requires k < |items|
    ensures Lines(Blocks(items, first)) == ListingLines(items, first) + [""]
    ensures Lines(Blocks(items, first))[4 * k..4 * k + 4] == ItemLines(first + k, items[k])
  {
    var ls := ListingLines(items, first);
    BlocksAreLines(items, first);
    ListingLinesOneLine(items, first);
    LinesOfUnlines(ls, "");
    assert Unlines(ls) + "" == Unlines(ls);
    ListingLinesAt(items, first, k);
    SliceOfAppend(ls, [""], 4 * k, 4 * k + 4);
  }
}
