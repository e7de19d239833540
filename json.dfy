/** JSON values as the service handles them: the rows the ORM hands back and
    the claim sets carried inside tokens are plain JSON objects. */
module Json {

  datatype Value = Str(s: string) | Int(i: int) | Bool(b: bool) | Null

  /** A JSON object: its own enumerable properties and their values. */
  type Object = map<string, Value>

  /** The object bound to `rest` by `const { a, b, ...rest } = obj`: every
      property of `obj` except those named before the rest element. */
  function Rest(obj: Object, named: set<string>): (rest: Object)
    ensures rest.Keys == obj.Keys - named
    ensures forall k :: k in rest ==> rest[k] == obj[k]
  {
    obj - named
  }

  /** Destructuring names that the object does not have leaves it as it was. */
  lemma RestOfDisjoint(obj: Object, named: set<string>)
    requires obj.Keys !! named
    ensures Rest(obj, named) == obj
  {
  }
}
