/** The error messages that name a record: a fixed text followed by the id
    or the name the request gave, as JavaScript's `"..." + id` writes it. */
module Messages {
  import opened Decimal

  /** `prefix + id`: the id in decimal after the text. The id can be read
      back from the message, so different ids give different messages. */
  function WithId(prefix: string, id: int): (m: string)
    ensures |m| > |prefix| && m[..|prefix|] == prefix
    ensures DecimalValue(m[|prefix|..]) == id
  {
    IntRoundTrip(id);
    var m := prefix + IntToDecimal(id);
    assert m[|prefix|..] == IntToDecimal(id);
    m
  }

  /** `prefix + name`. */
  function WithName(prefix: string, name: string): (m: string)
    ensures |m| == |prefix| + |name| && m[..|prefix|] == prefix && m[|prefix|..] == name
  {
    prefix + name
  }
}
