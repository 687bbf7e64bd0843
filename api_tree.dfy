/** The XML API replies as the script sees them once `parse_xml_response` (app.py:109-112)
    has turned them into Python values with xmltodict. */
module ApiTree {
  import opened Outcomes

  /** A parsed reply: element text, `None` for an empty element, a dict of child elements, or
      a list when an element repeats. */
  datatype Node = Null | Text(text: string) | Dict(fields: map<string, Node>) | List(items: seq<Node>)

  /** `node[key]`: a dict without the key raises KeyError; subscripting anything but a dict
      with a string raises TypeError. */
  function Get(node: Node, key: string): (r: Result<Node>)
    ensures r.Ok? <==> node.Dict? && key in node.fields
    ensures r.Ok? ==> r.value == node.fields[key]
    ensures r.Err? ==> r.error == if node.Dict? then KeyError(key) else TypeError
  {
    match node
    case Dict(fields) => if key in fields then Ok(fields[key]) else Err(KeyError(key))
    case _ => Err(TypeError)
  }
}
