/**
 * The feed item that flows from the message queue through the aggregator
 * into the store. Every payload field is opaque text to the pipeline; the
 * pipeline looks only at `link` (the dedup key of a batch insert), `md5`
 * (the address of an update) and `changed` (the routing flag).
 */
module Feed {

  datatype Item = Item(
    pubDate: string,
    md5: string,
    name: string,
    title: string,
    description: string,
    fullText: string,
    link: string,
    enclosure: string,
    category: string,
    changed: bool)

  /** The links that occur in a sequence of items. */
  function Links(items: seq<Item>): set<string>
  {
    set i | 0 <= i < |items| :: items[i].link
  }
}
