/**
 * The inset helpers every base view uses to turn a `margin`, `padding` or
 * `border` prop into a style array: one entry per field, in a fixed order,
 * each either a one-key style fragment or, when the field is falsy, the
 * falsy field itself (which the host's style flattening skips).
 */
module BaseProps {
  import opened Wrappers

  /** A value an inset field may hold: a number, a string such as "10%", or an animated node. */
  datatype InsetValue = Num(n: real) | Str(s: string) | Animated(node: nat)

  type Field = Option<InsetValue>

  /** JavaScript truthiness of an optional field: absent, `0` and `""` are falsy, an animated node is not. */
  predicate Truthy(v: Field) {
    match v
    case None => false
    case Some(Num(x)) => x != 0.0
    case Some(Str(s)) => s != ""
    case Some(Animated(_)) => true
  }

  /** The value of `field && { key: field }`. */
  datatype Entry = Placeholder(falsy: Field) | Fragment(key: string, value: InsetValue)

  datatype Inset = Inset(all: Field, top: Field, bottom: Field, left: Field, right: Field,
                         horizontal: Field, vertical: Field)

  datatype BorderInset = BorderInset(all: Field, topLeft: Field, topRight: Field,
                                     bottomLeft: Field, bottomRight: Field)

  /** `field && { key: field }` */
  function Pick(field: Field, key: string): (e: Entry)
    ensures e.Fragment? <==> Truthy(field)
  {
    if Truthy(field) then Fragment(key, field.value) else Placeholder(field)
  }

  /** The field an entry was made from. */
  function FieldOf(e: Entry): Field {
    match e
    case Placeholder(v) => v
    case Fragment(_, v) => Some(v)
  }

  /** An entry `Pick` could have produced under `key`. */
  predicate WellFormed(e: Entry, key: string) {
    match e
    case Placeholder(v) => !Truthy(v)
    case Fragment(k, v) => k == key && Truthy(Some(v))
  }

  /** Reads a style table back into its fields, provided every entry is one `Pick` could have produced. */
  function ReadBack(entries: seq<Entry>, keys: seq<string>): Option<seq<Field>>
    requires |entries| == |keys|
  {
    if forall i :: 0 <= i < |entries| ==> WellFormed(entries[i], keys[i])
    then Some(seq(|entries|, i requires 0 <= i < |entries| => FieldOf(entries[i])))
    else None
  }

  /** Field order of the margin and padding tables: all, horizontal, vertical, left, right, top, bottom. */
  function InsetFields(i: Inset): seq<Field> {
    [i.all, i.horizontal, i.vertical, i.left, i.right, i.top, i.bottom]
  }

  /** Field order of the border table: all, topRight, topLeft, bottomLeft, bottomRight. */
  function BorderFields(b: BorderInset): seq<Field> {
    [b.all, b.topRight, b.topLeft, b.bottomLeft, b.bottomRight]
  }

  const MarginKeys: seq<string> :=
    ["margin", "marginHorizontal", "marginVertical", "marginLeft", "marginRight", "marginTop", "marginBottom"]

  const PaddingKeys: seq<string> :=
    ["padding", "paddingHorizontal", "paddingVertical", "paddingLeft", "paddingRight", "paddingTop", "paddingBottom"]

  const BorderKeys: seq<string> :=
    ["borderRadius", "borderTopRightRadius", "borderTopLeftRadius", "borderBottomLeftRadius", "borderBottomRightRadius"]

  /**
   * `getMarginInset`: seven entries; entry i is a fragment exactly when the
   * i-th field is truthy, and the table reads back to the very fields it was
   * made from, in the order all, horizontal, vertical, left, right, top, bottom.
   */
  function GetMarginInset(m: Inset): (r: seq<Entry>)
    ensures |r| == |MarginKeys| == 7
    ensures forall i :: 0 <= i < 7 ==> (r[i].Fragment? <==> Truthy(InsetFields(m)[i]))
    ensures ReadBack(r, MarginKeys) == Some(InsetFields(m))
  {
    var r := [
      Pick(m.all, "margin"),
      Pick(m.horizontal, "marginHorizontal"),
      Pick(m.vertical, "marginVertical"),
      Pick(m.left, "marginLeft"),
      Pick(m.right, "marginRight"),
      Pick(m.top, "marginTop"),
      Pick(m.bottom, "marginBottom")
    ];
    assert forall i :: 0 <= i < 7 ==> r[i] == Pick(InsetFields(m)[i], MarginKeys[i]);
    PickReadsBack(r, InsetFields(m), MarginKeys);
    r
  }

  /** `getPaddingInset`: the margin table's mapping with padding keys. */
  function GetPaddingInset(p: Inset): (r: seq<Entry>)
    ensures |r| == |PaddingKeys| == 7
    ensures forall i :: 0 <= i < 7 ==> (r[i].Fragment? <==> Truthy(InsetFields(p)[i]))
    ensures ReadBack(r, PaddingKeys) == Some(InsetFields(p))
  {
    var r := [
      Pick(p.all, "padding"),
      Pick(p.horizontal, "paddingHorizontal"),
      Pick(p.vertical, "paddingVertical"),
      Pick(p.left, "paddingLeft"),
      Pick(p.right, "paddingRight"),
      Pick(p.top, "paddingTop"),
      Pick(p.bottom, "paddingBottom")
    ];
    assert forall i :: 0 <= i < 7 ==> r[i] == Pick(InsetFields(p)[i], PaddingKeys[i]);
    PickReadsBack(r, InsetFields(p), PaddingKeys);
    r
  }

  /** `getBorderRadius`: five entries, in the order all, topRight, topLeft, bottomLeft, bottomRight. */
  function GetBorderRadius(b: BorderInset): (r: seq<Entry>)
    ensures |r| == |BorderKeys| == 5
    ensures forall i :: 0 <= i < 5 ==> (r[i].Fragment? <==> Truthy(BorderFields(b)[i]))
    ensures ReadBack(r, BorderKeys) == Some(BorderFields(b))
  {
    var r := [
      Pick(b.all, "borderRadius"),
      Pick(b.topRight, "borderTopRightRadius"),
      Pick(b.topLeft, "borderTopLeftRadius"),
      Pick(b.bottomLeft, "borderBottomLeftRadius"),
      Pick(b.bottomRight, "borderBottomRightRadius")
    ];
    assert forall i :: 0 <= i < 5 ==> r[i] == Pick(BorderFields(b)[i], BorderKeys[i]);
    PickReadsBack(r, BorderFields(b), BorderKeys);
    r
  }

  /** A table made by `Pick` field by field reads back to its fields. */
  lemma PickReadsBack(r: seq<Entry>, fields: seq<Field>, keys: seq<string>)
    requires |r| == |fields| == |keys|
    requires forall i :: 0 <= i < |r| ==> r[i] == Pick(fields[i], keys[i])
    ensures ReadBack(r, keys) == Some(fields)
  {
    assert forall i :: 0 <= i < |r| ==> WellFormed(r[i], keys[i]) && FieldOf(r[i]) == fields[i];
    assert seq(|r|, i requires 0 <= i < |r| => FieldOf(r[i])) == fields;
  }

  /** Conversely, a table that reads back to some fields is exactly what `Pick` makes of them. */
  lemma ReadBackDetermines(r: seq<Entry>, keys: seq<string>, fields: seq<Field>)
    requires |r| == |keys|
    requires ReadBack(r, keys) == Some(fields)
    ensures |fields| == |r|
    ensures forall i :: 0 <= i < |r| ==> r[i] == Pick(fields[i], keys[i])
  {
    forall i | 0 <= i < |r|
      ensures r[i] == Pick(fields[i], keys[i])
    {
      assert WellFormed(r[i], keys[i]) && fields[i] == FieldOf(r[i]);
    }
  }

  /** Entry for entry, the padding table is the margin table with the key renamed. */
  lemma PaddingIsRenamedMargin(m: Inset)
    ensures forall i :: 0 <= i < 7 ==>
      GetPaddingInset(m)[i] == (match GetMarginInset(m)[i]
                                case Placeholder(v) => Placeholder(v)
                                case Fragment(_, v) => Fragment(PaddingKeys[i], v))
  {
    var pad, mar := GetPaddingInset(m), GetMarginInset(m);
    ReadBackDetermines(pad, PaddingKeys, InsetFields(m));
    ReadBackDetermines(mar, MarginKeys, InsetFields(m));
  }
}
