/**
  The top-level `common` package: the same conversion as pyblitz/common under
  public names (`convertDashesToCamelCase`, `capitalize`). The functions here
  delegate to CamelCase and state the promised properties in their own contracts.
*/
module Common {
  import opened Wrappers
  import opened Strs
  import CamelCase

  /** `capitalize(string)`: only the first character changes; an empty string raises IndexError. */
  function Capitalize(s: string): (r: Result<string>)
    ensures r.Err? <==> s == []
    ensures r.Ok? ==> |r.value| == |s| && r.value[0] == UpperChar(s[0]) && r.value[1..] == s[1..]
  {
    CamelCase.Capitalize(s)
  }

  /**
    `convertDashesToCamelCase(string)`: a dash-free string comes back unchanged; the
    result never contains a dash, so converting twice is converting once; the
    conversion fails exactly when a piece after a dash is empty.
  */
  function ConvertDashesToCamelCase(s: string): (r: Result<string>)
    ensures '-' !in s ==> r == Ok(s)
    ensures r.Ok? ==> '-' !in r.value && |r.value| == |s| - Count(s, '-')
    ensures r.Ok? ==> CamelCase.ConvertDashesToCamelCase(r.value) == r
    ensures r.Err? <==> CamelCase.HasEmptyPiece(Split(s, '-')[1..])
  {
    CamelCase.ConvertFailsIffEmptyPiece(s);
    if '-' !in s then
      CamelCase.NoDashUnchanged(s);
      CamelCase.ConvertResultShape(s);
      CamelCase.ConvertIdempotent(s);
      CamelCase.ConvertDashesToCamelCase(s)
    else if CamelCase.ConvertDashesToCamelCase(s).Ok? then
      CamelCase.ConvertResultShape(s);
      CamelCase.ConvertIdempotent(s);
      CamelCase.ConvertDashesToCamelCase(s)
    else CamelCase.ConvertDashesToCamelCase(s)
  }
}
