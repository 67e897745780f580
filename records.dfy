/**
 * Operations given as Python dictionaries (`List[Dict[str, Any]]`), as
 * src/operations_filters.py and src/views.py receive them: a key names a
 * column, and a value is text, an integer or `None`.
 */
module Records {
  import opened Text

  datatype Value = Text(text: string) | Int(number: int) | Null

  type Operation = map<string, Value>

  /** `str(value)`. */
  function Str(v: Value): (s: string)
    ensures v.Text? ==> s == v.text
    ensures v.Null? ==> s == "None"
    ensures v.Int? && v.number >= 0 ==> |s| >= 1 && AllDigits(s) && ParseNat(s) == v.number && (|s| == 1 || s[0] != '0')
    ensures v.Int? && v.number < 0 ==>
              |s| >= 2 && s[0] == '-' && AllDigits(s[1..]) && ParseNat(s[1..]) == -v.number && s[1] != '0'
  {
    match v
    case Text(t) => t
    case Int(n) =>
      if n >= 0 then
        ParseNatToString(n);
        NatToStringNoLeadingZero(n);
        NatToString(n)
      else
        ParseNatToString(-n);
        NatToStringNoLeadingZero(-n);
        assert IntToString(n)[1..] == NatToString(-n);
        IntToString(n)
    case Null => "None"
  }
}
