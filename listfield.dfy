/**
  The `pre=True` validator shared by the agent and connector output records
  (`parse_tools`, `parse_tool_plugins`): a text column is parsed as JSON, with
  `[]` when the text does not parse; a NULL reads as `[]`; any other value is
  passed on untouched. Parsing is `json.loads`: objects come back as dicts.
*/
module ListField {
  import opened Wrappers
  import opened Json
  import opened JsonDict

  /**
    The validator on the raw field value `v`; a Python `str` is `JString` here.
    A text that parses to something other than a list is returned as parsed.
  */
  function ParseListField(v: Json): (r: Json)
    ensures v.JNull? ==> r == JArray([])
    ensures !v.JString? && !v.JNull? ==> r == v
    ensures v.JString? ==> DictLike(r)
  {
    match v
    case JString(s) =>
      (match Decode(s)
       case Some(j) => Loaded(j)
       case None => JArray([]))
    case JNull => JArray([])
    case _ => v
  }

  /** What an ORM column holds, as the validator sees it: a `str` or `None`. */
  function ColumnValue(cell: Option<string>): (v: Json)
    ensures v.JNull? <==> cell.None?
  {
    if cell.Some? then JString(cell.value) else JNull
  }

  /** The text of any value reads back as that value with its objects made dicts. */
  lemma ParseDumped(j: Json)
    ensures ParseListField(JString(Encode(j))) == Loaded(j)
  {
    DecodeEncode(j);
  }

  /** Text written by `json.dumps(x)` reads back as `x`: its objects were dicts to begin with. */
  lemma ParseEncoded(j: Json)
    requires DictLike(j)
    ensures ParseListField(JString(Encode(j))) == j
  {
    ParseDumped(j);
    LoadedDictLike(j);
  }

  /** Text outside the range of `json.dumps` reads as `[]`. */
  lemma ParseMalformed(s: string)
    requires forall j :: s != Encode(j)
    ensures ParseListField(JString(s)) == JArray([])
  {
    if Decode(s).Some? {
      DecodeInvertsEncode(s, Decode(s).value);
      assert false;
    }
  }

  /** The text `null` is valid JSON that is not a list; it is returned as parsed, not replaced by `[]`. */
  lemma NullTextPassesThrough()
    ensures ParseListField(JString("null")) == JNull
  {
    ParseEncoded(JNull);
  }
}
