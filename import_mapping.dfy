/** The column mapping of the CSV import: each file header is classified by keyword, the
    user may reassign any header, the mapping is complete when every required field has a
    column, and the reverse map finds the column of each field.

    The mapping is a JavaScript object keyed by header; it is modelled as its list of
    entries in insertion order, with unique headers, since both `Object.values` and the
    "later header wins" behaviour of the reverse map depend on that order. */
module ImportMapping {
  import opened Types
  import opened Text

  datatype MappedField = DateField | DescriptionField | AmountField | TypeField | CategoryField | Ignore

  /** The keywords of the classifier, in the order they are tried, and the field each gives;
      the same five fields, in the same order, are the ones a complete mapping requires. */
  const Keywords: seq<string> := ["date", "desc", "amount", "type", "cat"]
  const KeywordFields: seq<MappedField> := [DateField, DescriptionField, AmountField, TypeField, CategoryField]

  /** The position of a field in `KeywordFields`. */
  function FieldIndex(f: MappedField): (k: nat)
    requires f != Ignore
    ensures k < |KeywordFields| && KeywordFields[k] == f
  {
    match f
    case DateField => 0
    case DescriptionField => 1
    case AmountField => 2
    case TypeField => 3
    case CategoryField => 4
  }

  /** The lowercased header contains keyword `k`. */
  predicate HasKeyword(header: string, k: int)
    requires 0 <= k < |Keywords|
  {
    Contains(ToLower(header), Keywords[k])
  }

  /** The `if / else if` chain on the lowercased header: the first keyword it contains gives
      the field, and a header containing none of them is ignored. */
  function ClassifyHeader(header: string): (f: MappedField)
    ensures f == Ignore <==> forall k :: 0 <= k < |Keywords| ==> !HasKeyword(header, k)
    ensures f != Ignore ==> HasKeyword(header, FieldIndex(f))
    ensures f != Ignore ==> forall k :: 0 <= k < FieldIndex(f) ==> !HasKeyword(header, k)
  {
    if HasKeyword(header, 0) then DateField
    else if HasKeyword(header, 1) then DescriptionField
    else if HasKeyword(header, 2) then AmountField
    else if HasKeyword(header, 3) then TypeField
    else if HasKeyword(header, 4) then CategoryField
    else Ignore
  }

  datatype Column = Column(header: string, field: MappedField)

  predicate UniqueHeaders(cm: seq<Column>)
  {
    forall i, j :: 0 <= i < j < |cm| ==> cm[i].header != cm[j].header
  }

  /** `columnMap[header]` */
  function Lookup(cm: seq<Column>, header: string): (r: Option<MappedField>)
    ensures r.Some? <==> exists i :: 0 <= i < |cm| && cm[i].header == header
    ensures UniqueHeaders(cm) ==> forall i :: 0 <= i < |cm| && cm[i].header == header ==> r == Some(cm[i].field)
  {
    if cm == [] then None
    else if cm[0].header == header then Some(cm[0].field)
    else
      var r := Lookup(cm[1..], header);
      assert forall i :: 1 <= i < |cm| ==> cm[i] == cm[1..][i - 1];
      r
  }

  /** `{ ...prev, [header]: field }`: an existing header keeps its position and takes the new
      field, a new header is appended. */
  function Assign(cm: seq<Column>, header: string, f: MappedField): (r: seq<Column>)
    ensures Lookup(cm, header).Some? ==> |r| == |cm| && forall i :: 0 <= i < |cm| ==> r[i].header == cm[i].header
    ensures Lookup(cm, header).None? ==> r == cm + [Column(header, f)]
    ensures UniqueHeaders(cm) ==> UniqueHeaders(r)
  {
    if cm == [] then [Column(header, f)]
    else if cm[0].header == header then [Column(header, f)] + cm[1..]
    else
      assert forall i :: 1 <= i < |cm| ==> cm[i] == cm[1..][i - 1];
      [cm[0]] + Assign(cm[1..], header, f)
  }

  /** After `Assign(cm, header, f)`, `header` maps to `f` and every other header keeps its
      field (or stays absent). */
  lemma {:induction false} AssignLookup(cm: seq<Column>, header: string, f: MappedField, g: string)
    ensures Lookup(Assign(cm, header, f), g) == if g == header then Some(f) else Lookup(cm, g)
  {
    if cm != [] && cm[0].header != header {
      AssignLookup(cm[1..], header, f, g);
      var r := Assign(cm, header, f);
      assert r == [cm[0]] + Assign(cm[1..], header, f);
      assert r[1..] == Assign(cm[1..], header, f);
    } else if cm != [] {
      assert Assign(cm, header, f)[1..] == cm[1..];
    }
  }

  /** The `forEach` that builds `initialMap`: each header in turn is assigned its class. */
  function InitialMap(headers: seq<string>): (cm: seq<Column>)
    ensures UniqueHeaders(cm)
    ensures forall g :: Lookup(cm, g).Some? <==> g in headers
    ensures forall g :: g in headers ==> Lookup(cm, g) == Some(ClassifyHeader(g))
    ensures |cm| <= |headers|
  {
    if headers == [] then []
    else
      var last := headers[|headers| - 1];
      var prefix := headers[..|headers| - 1];
      assert headers == prefix + [last];
      var m := InitialMap(prefix);
      forall g ensures Lookup(Assign(m, last, ClassifyHeader(last)), g) == if g == last then Some(ClassifyHeader(last)) else Lookup(m, g) {
        AssignLookup(m, last, ClassifyHeader(last), g);
      }
      Assign(m, last, ClassifyHeader(last))
  }

  /** With distinct headers the initial map lists every header, in file order, with its class. */
  lemma {:induction false} InitialMapOfDistinctHeaders(headers: seq<string>)
    requires forall i, j :: 0 <= i < j < |headers| ==> headers[i] != headers[j]
    ensures |InitialMap(headers)| == |headers|
    ensures forall i :: 0 <= i < |headers| ==> InitialMap(headers)[i] == Column(headers[i], ClassifyHeader(headers[i]))
  {
    if headers != [] {
      var last := headers[|headers| - 1];
      var prefix := headers[..|headers| - 1];
      InitialMapOfDistinctHeaders(prefix);
      assert last !in prefix;
    }
  }

  /** The `forEach` over the file's headers that fills `initialMap`. */
  method AutoMap(headers: seq<string>) returns (cm: seq<Column>)
    ensures cm == InitialMap(headers)
  {
    cm := [];
    for i := 0 to |headers|
      invariant cm == InitialMap(headers[..i])
    {
      assert headers[..i + 1][..i] == headers[..i];
      cm := Assign(cm, headers[i], ClassifyHeader(headers[i]));
    }
    assert headers[..|headers|] == headers;
  }

  /** `Object.values(columnMap).includes(f)` */
  predicate HasField(cm: seq<Column>, f: MappedField)
  {
    exists i :: 0 <= i < |cm| && cm[i].field == f
  }

  /** `isMappingValid`: each of the five required fields is among the mapped values. */
  function IsMappingValid(cm: seq<Column>): (valid: bool)
    ensures valid <==> forall f :: f != Ignore ==> HasField(cm, f)
  {
    var valid := forall k :: 0 <= k < |KeywordFields| ==> HasField(cm, KeywordFields[k]);
    assert valid ==> forall f :: f != Ignore ==> HasField(cm, f) by {
      if valid {
        forall f | f != Ignore ensures HasField(cm, f) {
          assert HasField(cm, KeywordFields[FieldIndex(f)]);
        }
      }
    }
    valid
  }

  /** Position `i` holds the last column mapped to `f`. */
  predicate LastWithField(cm: seq<Column>, f: MappedField, i: int)
  {
    0 <= i < |cm| && cm[i].field == f && forall j :: i < j < |cm| ==> cm[j].field != f
  }

  /** The `reduce` over `Object.entries(columnMap)` that maps each field to its header:
      ignored columns are skipped and a later column overwrites an earlier one. */
  function ReverseMap(cm: seq<Column>): (rm: map<MappedField, string>)
    ensures Ignore !in rm
    ensures forall f :: f in rm <==> f != Ignore && HasField(cm, f)
  {
    if cm == [] then map[]
    else
      var last := cm[|cm| - 1];
      var prefix := cm[..|cm| - 1];
      var m := ReverseMap(prefix);
      assert forall f :: HasField(cm, f) <==> HasField(prefix, f) || last.field == f by {
        assert forall i :: 0 <= i < |prefix| ==> prefix[i] == cm[i];
      }
      if last.field != Ignore then m[last.field := last.header] else m
  }

  /** The header the reverse map gives a field is that of the last column mapped to it. */
  lemma {:induction false} ReverseMapLastWins(cm: seq<Column>, f: MappedField)
    requires f in ReverseMap(cm)
    ensures exists i :: LastWithField(cm, f, i) && ReverseMap(cm)[f] == cm[i].header
  {
    var last := cm[|cm| - 1];
    var prefix := cm[..|cm| - 1];
    if last.field == f {
      assert LastWithField(cm, f, |cm| - 1);
    } else {
      assert ReverseMap(cm)[f] == ReverseMap(prefix)[f];
      ReverseMapLastWins(prefix, f);
      var i :| LastWithField(prefix, f, i) && ReverseMap(prefix)[f] == prefix[i].header;
      assert prefix[i] == cm[i];
      assert LastWithField(cm, f, i);
    }
  }

  /** A complete mapping gives every required field a column in the reverse map. */
  lemma ValidMappingCoversRequiredFields(cm: seq<Column>)
    requires IsMappingValid(cm)
    ensures forall k :: 0 <= k < |KeywordFields| ==> KeywordFields[k] in ReverseMap(cm)
  {
  }
}
