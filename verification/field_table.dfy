/** Field-id lookups against the observation's field table. */
module FieldTable {
  import opened Outcomes
  import opened PyText

  /**
   * `msmd.namesforfields(int(token))[0]`: the field table is a map from
   * field id to field name; a token `int` rejects and an id the table does
   * not hold both raise.
   */
  function FieldName(names: map<int, string>, token: string): Result<string>
  {
    match ParseInt(token)
    case None => Err(BadFieldId(token))
    case Some(id) => if id in names then Ok(names[id]) else Err(UnknownField(id))
  }

  /** Every comma-separated id of a field list is found in the table. */
  predicate AllFound(names: map<int, string>, ids: string)
  {
    forall i :: 0 <= i < |SplitComma(ids)| ==> FieldName(names, SplitComma(ids)[i]).Ok?
  }

  /** A lookup succeeds exactly for a readable id the table holds, and then gives that field's name. */
  lemma FieldNameOk(names: map<int, string>, token: string)
    ensures FieldName(names, token).Ok? <==> ParseInt(token).Some? && ParseInt(token).value in names
    ensures FieldName(names, token).Ok? ==> FieldName(names, token).value in names.Values
  {
  }

  /** An id written in decimal is found under that id. */
  lemma FieldNameOfId(names: map<int, string>, id: int)
    requires id in names
    ensures FieldName(names, FormatInt(id)) == Ok(names[id])
  {
    ParseFormat(id);
  }
}
