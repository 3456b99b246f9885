/** `enum_to_string`: a value serialised to JSON with its enclosing quotes
    stripped, so a unit enum variant becomes its bare name. */
module StringUtil {
  import opened Wrappers

  /** A serialisation failure, handed back to the caller unchanged. */
  datatype SerialiseError = SerialiseError(message: string)

  /** What is left once the first and the last character are dropped. */
  function Unquoted(s: string): (r: string)
    ensures |s| >= 2 ==> |r| == |s| - 2 && forall i :: 0 <= i < |r| ==> r[i] == s[i + 1]
    ensures |s| < 2 ==> r == ""
  {
    if |s| >= 2 then s[1..|s| - 1] else ""
  }

  /** The strip undoes JSON's quoting of a string without escapes. */
  lemma UnquotedQuoted(name: string)
    ensures Unquoted(['"'] + name + ['"']) == name
  {
    var q := ['"'] + name + ['"'];
    assert q[1..|q| - 1] == name;
  }

  /** `enum_to_string`, given the outcome of serialising the value: a serialiser
      error comes back as it is; otherwise a character iterator over the text
      is advanced once at the front and once at the back and the rest is taken. */
  method EnumToString(serialised: Result<string, SerialiseError>) returns (r: Result<string, SerialiseError>)
    ensures serialised.Err? ==> r == serialised
    ensures serialised.Ok? ==> r == Ok(Unquoted(serialised.value))
  {
    if serialised.Err? {
      return Err(serialised.error);
    }
    var s := serialised.value;
    var front, back := 0, |s|;
    // `chars.next()`
    if front < back {
      front := front + 1;
    }
    // `chars.next_back()`
    if front < back {
      back := back - 1;
    }
    assert |s| < 2 ==> s[front..back] == [];
    r := Ok(s[front..back]);
  }
}
