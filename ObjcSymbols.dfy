/** The attribute string of an Objective-C property: its comma-separated values and the type
    attribute that leads them. */
module ObjcSymbols {
  import opened Wrappers
  import opened Strings

  /** Why a property's type cannot be read; the run stops on it. */
  datatype PropertyError = TypeAttributeMissing(propertyName: string)

  /** Number of separators at the head of `s`. */
  function Leading(s: string, sep: char): (n: nat)
    ensures n <= |s|
    ensures forall i :: 0 <= i < n ==> s[i] == sep
    ensures n < |s| ==> s[n] != sep
  {
    if s == [] || s[0] != sep then 0 else 1 + Leading(s[1..], sep)
  }

  /** `attributeValues`: the non-empty comma-free runs of the attribute string, in order, with
      nothing but commas lost between them. */
  function AttributeValues(attributes: string): (values: seq<string>)
    ensures forall i :: 0 <= i < |values| ==> values[i] != [] && ',' !in values[i]
    ensures Concat(values) == Without(attributes, ',')
  {
    SplitKeepsCharacters(attributes, ',');
    Split(attributes, ',')
  }

  /** `typeAttribute`: the first attribute value, which must begin with `T`; a property without
      one stops the run. The value is the first run of non-commas in the attribute string. */
  function TypeAttribute(name: string, attributes: string): (r: Result<string, PropertyError>)
    ensures var lead := Leading(attributes, ',');
      r.Ok? <==> lead < |attributes| && attributes[lead] == 'T'
    ensures r.Fatal? ==> r.error == TypeAttributeMissing(name)
    ensures r.Ok? ==>
      var lead := Leading(attributes, ',');
      var rest := attributes[lead..];
      r.value == rest[..PieceEnd(rest, ',')] && r.value[0] == 'T' && ',' !in r.value
  {
    var values := AttributeValues(attributes);
    FirstValue(attributes, ',');
    if values == [] || !StartsWith(values[0], "T") then Fatal(TypeAttributeMissing(name))
    else Ok(values[0])
  }

  /** The first piece of `Split` is the run that starts after the leading separators. */
  lemma {:induction false} FirstValue(s: string, sep: char)
    ensures var lead := Leading(s, sep);
      && (Split(s, sep) != [] <==> lead < |s|)
      && (lead < |s| ==> Split(s, sep)[0] == s[lead..][..PieceEnd(s[lead..], sep)])
  {
    if s != [] && s[0] == sep {
      FirstValue(s[1..], sep);
      assert s[1..][Leading(s[1..], sep)..] == s[Leading(s, sep)..];
    }
  }

  /** Writing a type attribute `t` and further values out as a property attribute string gives
      `t` back as the type attribute. */
  lemma TypeAttributeOfWritten(name: string, values: seq<string>)
    requires |values| > 0 && values[0] != [] && values[0][0] == 'T'
    requires forall i :: 0 <= i < |values| ==> values[i] != [] && ',' !in values[i]
    ensures TypeAttribute(name, Join(values, ',')) == Ok(values[0])
  {
    SplitJoin(values, ',');
  }

  /** An attribute string whose first value does not begin with `T` (or that has no value at
      all) has no type attribute. */
  lemma MissingTypeAttribute(name: string, values: seq<string>)
    requires forall i :: 0 <= i < |values| ==> values[i] != [] && ',' !in values[i]
    requires values == [] || values[0][0] != 'T'
    ensures TypeAttribute(name, Join(values, ',')) == Fatal(TypeAttributeMissing(name))
  {
    SplitJoin(values, ',');
  }
}
