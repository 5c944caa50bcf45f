/** The `CsvWriterPipeline` of common/common/common/pipelines.py (copied
    unchanged into org/sk/sk/pipelines.py): while the spider runs it keeps
    every item and the union of their keys, which become the CSV columns
    when the spider closes. Opening and writing the file is not modelled. */
module CsvPipelines {
  import opened Values
  import EventUtil

  class CsvWriterPipeline {
    /** The columns seen so far, in first-seen order. */
    var colnames: seq<string>
    /** The items seen so far, in order; the same objects the spider hands on. */
    var items: seq<Item>

    predicate Valid()
      reads this
    {
      EventUtil.Distinct(colnames)
    }

    /** `open_spider`: no items and no columns yet. */
    constructor()
      ensures Valid()
      ensures colnames == [] && items == []
    {
      colnames := [];
      items := [];
    }

    /** `process_item`: every key of the item not seen before becomes a new
        column, in the item's key order; the item itself is kept and passed
        on unchanged. */
    method ProcessItem(item: Item) returns (out: Item)
      requires Valid()
      modifies this
      ensures Valid()
      ensures out == item
      ensures items == old(items) + [item]
      ensures colnames == EventUtil.AddNames(old(colnames), Keys(item.fields))
      ensures old(colnames) <= colnames
      ensures forall k :: k in colnames <==> k in old(colnames) || k in Keys(item.fields)
    {
      var keys := Keys(item.fields);
      var i := 0;
      while i < |keys|
        invariant i <= |keys|
        invariant colnames == EventUtil.AddNames(old(colnames), keys[..i])
        invariant items == old(items)
        decreases |keys| - i
      {
        assert keys[..i + 1][..i] == keys[..i];
        if keys[i] !in colnames {
          colnames := colnames + [keys[i]];
        }
        i := i + 1;
      }
      assert keys[..i] == keys;
      EventUtil.AddNamesSpec(old(colnames), keys);
      items := items + [item];
      out := item;

    }
  }
}
