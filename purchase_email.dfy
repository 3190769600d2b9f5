/**
 * The product lists of the purchase-summary email (src/utils.js:99, 104): each
 * product is wrapped in a list-item tag and the tags are joined with no separator.
 * Only this string builder is modelled, not the template around it or the send.
 */
module PurchaseEmail {

  /** One list entry, `<li>${product}</li>`. */
  function Tag(product: string): string
  {
    "<li>" + product + "</li>"
  }

  /** `Array.prototype.join(sep)` on an array of strings. */
  function Join(parts: seq<string>, sep: string): string
  {
    if |parts| == 0 then ""
    else if |parts| == 1 then parts[0]
    else parts[0] + sep + Join(parts[1..], sep)
  }

  /** `items.map(Tag)`: one tag per item, in the same order. */
  function Tags(items: seq<string>): (tags: seq<string>)
    ensures |tags| == |items|
    ensures forall i :: 0 <= i < |items| ==> tags[i] == Tag(items[i])
  {
    if |items| == 0 then [] else [Tag(items[0])] + Tags(items[1..])
  }

  /** The rendered list, exactly as the template builds it. */
  function RenderList(items: seq<string>): string
  {
    Join(Tags(items), "")
  }

  /** Total number of characters in the items. */
  function TotalLength(items: seq<string>): nat
  {
    if |items| == 0 then 0 else |items[0]| + TotalLength(items[1..])
  }

  lemma RenderEmpty()
    ensures RenderList([]) == ""
  {
  }

  /** Joining with the empty separator puts the first part in front of the join of the rest. */
  lemma JoinEmptySepCons(parts: seq<string>)
    requires |parts| > 0
    ensures Join(parts, "") == parts[0] + Join(parts[1..], "")
  {
  }

  /** The first item's tag comes first, followed by the rendering of the rest. */
  lemma RenderCons(items: seq<string>)
    requires |items| > 0
    ensures RenderList(items) == Tag(items[0]) + RenderList(items[1..])
  {
    JoinEmptySepCons(Tags(items));
  }

  /** Rendering distributes over concatenation of the input lists. */
  lemma {:induction false} RenderAppend(a: seq<string>, b: seq<string>)
    ensures RenderList(a + b) == RenderList(a) + RenderList(b)
  {
    if |a| == 0 {
      assert a + b == b;
    } else {
      RenderCons(a + b);
      assert (a + b)[1..] == a[1..] + b;
      RenderAppend(a[1..], b);
      RenderCons(a);
    }
  }

  /** In order: item k's tag sits between the renderings of the items before and after it. */
  lemma RenderAt(items: seq<string>, k: nat)
    requires k < |items|
    ensures RenderList(items) == RenderList(items[..k]) + Tag(items[k]) + RenderList(items[k + 1..])
  {
    assert items == items[..k] + items[k..];
    RenderAppend(items[..k], items[k..]);
    RenderCons(items[k..]);
    assert items[k..][1..] == items[k + 1..];
  }

  /** Every item adds its own length plus the nine characters of `<li>` and `</li>`. */
  lemma {:induction false} RenderLength(items: seq<string>)
    ensures |RenderList(items)| == TotalLength(items) + 9 * |items|
  {
    if |items| > 0 {
      RenderCons(items);
      RenderLength(items[1..]);
    }
  }
}
