/** The content-similarity generator: a sentence encoder plus a FAISS L2
    index. Its search is left abstract; what the model keeps is that the
    index may not have been built yet, and the text items are encoded from. */
module Content {
  import opened Models

  /** Either no index has been built, or a nearest-neighbour search from
      (query text, top_k) to item ids. */
  datatype ContentIndex = Unbuilt | Built(search: (string, int) -> seq<ItemId>)

  /** `get_similar`: fails (raises) when the index has not been built,
      otherwise returns what the search returns. */
  function GetSimilar(index: ContentIndex, text: string, topK: int): (r: Option<seq<ItemId>>)
    ensures r.None? <==> index.Unbuilt?
  {
    match index
    case Unbuilt => None
    case Built(search) => Some(search(text, topK))
  }

  /** The text an item is indexed and queried by: `f"{title}. {description} [{community}]"`;
      a missing description is formatted as Python formats None. */
  function QueryText(item: Item): string {
    item.title + ". " + item.description.GetOr("None") + " [" + item.community + "]"
  }
}
