/** The schema every service that takes a record id uses: `id` must be
    given, be a number and be at least 1. */
module Schemas {
  import opened Wrappers
  import opened Validation

  const IdRequired := "O ID é obrigatório"
  const IdInvalidType := "O ID deve ser um número"
  const IdTooSmall := "O ID não pode ser menor que 1"

  const IdField: IntField := IntField(IdRequired, IdInvalidType, Min(1, IdTooSmall))

  /** The issue the id schema reports, one message per way to fail. */
  function ValidateId(id: Input<int>): (r: Option<string>)
    ensures r == Some(IdRequired) <==> id.Missing?
    ensures r == Some(IdInvalidType) <==> id.WrongType?
    ensures r == Some(IdTooSmall) <==> id.Val? && id.value < 1
    ensures r.None? <==> id.Val? && id.value >= 1
  {
    FirstIssue([IntValue(IdField, id)])
  }
}
