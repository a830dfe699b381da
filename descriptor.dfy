/** SettingDescriptor of Alkami.Utilities: the metadata attached to one
    property of a settings class, with an optional list of descriptors for the
    properties of a nested settings object. */
module Descriptor {
  import opened Wrappers
  import opened Strings
  import opened Values

  /** The reflected property a descriptor stands for: its identifier and declared type. */
  datatype PropertyInfo = PropertyInfo(id: string, kind: Kind)

  /** The attribute's fields. Strings may be null (None); NestedSettingDescriptors
      is null (NoCollection) for a property that is not a nested settings object. */
  datatype SettingDescriptor = SettingDescriptor(
    name: Option<string>,
    displayName: Option<string>,
    description: Option<string>,
    order: real,
    helpId: Option<string>,
    isRequired: bool,
    isSecure: bool,
    isEnvironmental: bool,
    isMultiline: bool,
    isHtml: bool,
    defaultValue: Value,
    property: Option<PropertyInfo>,
    nested: SettingDescriptorCollection)
  {
    /** The nested list is present and not empty. */
    predicate HasNestedSettingDescriptors() {
      nested.Collection? && |nested.items| > 0
    }

    /** The size of the nested list; 0 when there is none. */
    function NestedCount(): nat {
      if nested.Collection? then |nested.items| else 0
    }
  }

  /** A SettingDescriptorCollection reference: null, or a list of descriptors
      in their order. Constructing one from a sequence keeps that sequence. */
  datatype SettingDescriptorCollection =
    | NoCollection
    | Collection(items: seq<SettingDescriptor>)

  /** A descriptor as `new SettingDescriptor()` creates it: every field at its default. */
  const Blank := SettingDescriptor(None, None, None, 0.0, None, false, false, false, false, false, Null, None, NoCollection)

  /** string.IsNullOrEmpty. */
  predicate IsNullOrEmpty(s: Option<string>) {
    s.None? || s.value == ""
  }

  // ---------------------------------------------------------------------------
  // SetPropertyInfo
  // ---------------------------------------------------------------------------

  /** SetPropertyInfo: a null property is rejected; otherwise only Property changes. */
  function SetPropertyInfo(d: SettingDescriptor, propertyInfo: Option<PropertyInfo>): (r: Result<SettingDescriptor>)
    ensures propertyInfo.None? <==> r.Err?
    ensures r.Err? ==> r.error == ArgumentNull("propertyInfo")
    ensures r.Ok? ==> r.value.property == propertyInfo && r.value.(property := d.property) == d
  {
    if propertyInfo.None? then Err(ArgumentNull("propertyInfo"))
    else Ok(d.(property := propertyInfo))
  }

  // ---------------------------------------------------------------------------
  // CompareTo
  // ---------------------------------------------------------------------------

  /** string.Compare(a, b, StringComparison.Ordinal), reduced to its sign; null sorts first. */
  function CompareOrdinal(a: Option<string>, b: Option<string>): int {
    if a == b then 0
    else if a.None? then -1
    else if b.None? then 1
    else if Less(a.value, b.value) then -1
    else 1
  }

  /** double.CompareTo on the model's exact reals. */
  function CompareReal(a: real, b: real): int {
    if a < b then -1 else if a == b then 0 else 1
  }

  /** bool.CompareTo: false precedes true. */
  function CompareBool(a: bool, b: bool): int {
    if a == b then 0 else if !a then -1 else 1
  }

  /** A comparison result as the 32-bit pattern that `|` operates on. */
  function Bits(c: int): (b: bv32)
    requires -1 <= c <= 1
    ensures b == 0 <==> c == 0
  {
    if c == -1 then 0xFFFF_FFFF else if c == 0 then 0 else 1
  }

  /** The sign bit of an Int32 bit pattern. */
  predicate IsNegative(b: bv32) {
    b & 0x8000_0000 != 0
  }

  /** CompareTo: the bitwise OR of ten field comparisons, as the bit pattern
      of the Int32 it returns; a null other is dereferenced, which is a
      NullReferenceException. */
  function CompareTo(d: SettingDescriptor, other: Option<SettingDescriptor>): (r: Result<bv32>)
    ensures other.None? <==> r.Err?
    ensures r.Err? ==> r.error == NullReference
    ensures r.Ok? ==> (r.value == 0 <==>
      var o := other.value;
      d.name == o.name && d.displayName == o.displayName &&
      d.description == o.description && d.order == o.order &&
      d.helpId == o.helpId && d.isRequired == o.isRequired &&
      d.isSecure == o.isSecure && d.isEnvironmental == o.isEnvironmental &&
      d.isMultiline == o.isMultiline && d.isHtml == o.isHtml)
  {
    if other.None? then Err(NullReference)
    else
      var o := other.value;
      var b0 := Bits(CompareOrdinal(d.name, o.name));
      var b1 := b0 | Bits(CompareOrdinal(d.displayName, o.displayName));
      var b2 := b1 | Bits(CompareOrdinal(d.description, o.description));
      var b3 := b2 | Bits(CompareReal(d.order, o.order));
      var b4 := b3 | Bits(CompareOrdinal(d.helpId, o.helpId));
      var b5 := b4 | Bits(CompareBool(d.isRequired, o.isRequired));
      var b6 := b5 | Bits(CompareBool(d.isSecure, o.isSecure));
      var b7 := b6 | Bits(CompareBool(d.isEnvironmental, o.isEnvironmental));
      var b8 := b7 | Bits(CompareBool(d.isMultiline, o.isMultiline));
      var b9 := b8 | Bits(CompareBool(d.isHtml, o.isHtml));
      Ok(b9)
  }

  /** CompareTo ignores the default value, the property and the nested list. */
  lemma CompareToIgnores(d: SettingDescriptor, v: Value, p: Option<PropertyInfo>, n: SettingDescriptorCollection)
    ensures CompareTo(d, Some(d.(defaultValue := v, property := p, nested := n))) == Ok(0)
  {
  }

  /** The sign of CompareTo is not an order: two descriptors can each compare
      below the other. */
  lemma CompareToNotAnOrder()
    ensures var a := Blank.(name := Some("a"), isRequired := true);
            var b := Blank.(name := Some("b"));
            CompareTo(a, Some(b)).Ok? && IsNegative(CompareTo(a, Some(b)).value) &&
            CompareTo(b, Some(a)).Ok? && IsNegative(CompareTo(b, Some(a)).value)
  {
    var a := Blank.(name := Some("a"), isRequired := true);
    var b := Blank.(name := Some("b"));
    assert Less("a", "b");
    assert !Less("b", "a");
  }

  // ---------------------------------------------------------------------------
  // ToString
  // ---------------------------------------------------------------------------

  /** The slots of ToString in order, each shown when its property is set:
      Name, DisplayName, Description, Order (when positive), HelpId,
      IsRequired, IsSecure, IsEnvironmental, IsHtml, IsMultiline (only when
      IsHtml is not set) and the number of nested descriptors (when there are
      any). orderText stands for Order.ToString(). */
  function Slots(d: SettingDescriptor, orderText: string): seq<Part> {
    [Part(!IsNullOrEmpty(d.name), "Name:" + d.name.GetOr(""))] +
    [Part(!IsNullOrEmpty(d.displayName), "DisplayName:" + d.displayName.GetOr(""))] +
    [Part(!IsNullOrEmpty(d.description), "Description:" + d.description.GetOr(""))] +
    [Part(d.order > 0.0, "Order:" + orderText)] +
    [Part(!IsNullOrEmpty(d.helpId), "HelpId:" + d.helpId.GetOr(""))] +
    [Part(d.isRequired, "IsRequired")] +
    [Part(d.isSecure, "IsSecure")] +
    [Part(d.isEnvironmental, "IsEnvironmental")] +
    [Part(d.isHtml, "IsHtml")] +
    [Part(!d.isHtml && d.isMultiline, "IsMultiline")] +
    [Part(d.HasNestedSettingDescriptors(), "HasNestedSettingDescriptors(" + Digits(d.NestedCount()) + ")")]
  }

  /** Eleven steps from the empty builder write the shown parts joined by sep. */
  lemma WriteEleven(p0: Part, p1: Part, p2: Part, p3: Part, p4: Part, p5: Part, p6: Part, p7: Part, p8: Part, p9: Part, p10: Part, sep: string)
    ensures Step(Step(Step(Step(Step(Step(Step(Step(Step(Step(Step(("", ""), p0, sep), p1, sep), p2, sep), p3, sep), p4, sep), p5, sep), p6, sep), p7, sep), p8, sep), p9, sep), p10, sep) == Written([p0] + [p1] + [p2] + [p3] + [p4] + [p5] + [p6] + [p7] + [p8] + [p9] + [p10], sep)
  {
    assert [] + [p0] == [p0];
    StepWritten([], p0, sep);
    StepWritten([p0], p1, sep);
    StepWritten([p0] + [p1], p2, sep);
    StepWritten([p0] + [p1] + [p2], p3, sep);
    StepWritten([p0] + [p1] + [p2] + [p3], p4, sep);
    StepWritten([p0] + [p1] + [p2] + [p3] + [p4], p5, sep);
    StepWritten([p0] + [p1] + [p2] + [p3] + [p4] + [p5], p6, sep);
    StepWritten([p0] + [p1] + [p2] + [p3] + [p4] + [p5] + [p6], p7, sep);
    StepWritten([p0] + [p1] + [p2] + [p3] + [p4] + [p5] + [p6] + [p7], p8, sep);
    StepWritten([p0] + [p1] + [p2] + [p3] + [p4] + [p5] + [p6] + [p7] + [p8], p9, sep);
    StepWritten([p0] + [p1] + [p2] + [p3] + [p4] + [p5] + [p6] + [p7] + [p8] + [p9], p10, sep);
  }


  /** The builder state after the eleven slots of ToString is the shown slots
      joined by ", " (and the connector is ", " once something was written). */
  lemma RenderWritten(d: SettingDescriptor, orderText: string, state: (string, string))
    requires state == Step(Step(Step(Step(Step(Step(Step(Step(Step(Step(Step(("", ""), Part(!IsNullOrEmpty(d.name), "Name:" + d.name.GetOr("")), ", "), Part(!IsNullOrEmpty(d.displayName), "DisplayName:" + d.displayName.GetOr("")), ", "), Part(!IsNullOrEmpty(d.description), "Description:" + d.description.GetOr("")), ", "), Part(d.order > 0.0, "Order:" + orderText), ", "), Part(!IsNullOrEmpty(d.helpId), "HelpId:" + d.helpId.GetOr("")), ", "), Part(d.isRequired, "IsRequired"), ", "), Part(d.isSecure, "IsSecure"), ", "), Part(d.isEnvironmental, "IsEnvironmental"), ", "), Part(d.isHtml, "IsHtml"), ", "), Part(!d.isHtml && d.isMultiline, "IsMultiline"), ", "), Part(d.HasNestedSettingDescriptors(), "HasNestedSettingDescriptors(" + Digits(d.NestedCount()) + ")"), ", ")
    ensures state == Written(Slots(d, orderText), ", ")
  {
    WriteEleven(Part(!IsNullOrEmpty(d.name), "Name:" + d.name.GetOr("")), Part(!IsNullOrEmpty(d.displayName), "DisplayName:" + d.displayName.GetOr("")), Part(!IsNullOrEmpty(d.description), "Description:" + d.description.GetOr("")), Part(d.order > 0.0, "Order:" + orderText), Part(!IsNullOrEmpty(d.helpId), "HelpId:" + d.helpId.GetOr("")), Part(d.isRequired, "IsRequired"), Part(d.isSecure, "IsSecure"), Part(d.isEnvironmental, "IsEnvironmental"), Part(d.isHtml, "IsHtml"), Part(!d.isHtml && d.isMultiline, "IsMultiline"), Part(d.HasNestedSettingDescriptors(), "HasNestedSettingDescriptors(" + Digits(d.NestedCount()) + ")"), ", ");
  }

  /** ToString: every slot that is set is appended behind the connector, which
      is empty before the first one and ", " after it. */
  method ToString(d: SettingDescriptor, orderText: string) returns (r: string)
    ensures r == JoinWith(Shown(Slots(d, orderText)), ", ")
  {
    var sb, connector := "", "";
    sb, connector := AppendPart(sb, connector, !IsNullOrEmpty(d.name), "Name:" + d.name.GetOr(""), ", ");
    sb, connector := AppendPart(sb, connector, !IsNullOrEmpty(d.displayName), "DisplayName:" + d.displayName.GetOr(""), ", ");
    sb, connector := AppendPart(sb, connector, !IsNullOrEmpty(d.description), "Description:" + d.description.GetOr(""), ", ");
    sb, connector := AppendPart(sb, connector, d.order > 0.0, "Order:" + orderText, ", ");
    sb, connector := AppendPart(sb, connector, !IsNullOrEmpty(d.helpId), "HelpId:" + d.helpId.GetOr(""), ", ");
    sb, connector := AppendPart(sb, connector, d.isRequired, "IsRequired", ", ");
    sb, connector := AppendPart(sb, connector, d.isSecure, "IsSecure", ", ");
    sb, connector := AppendPart(sb, connector, d.isEnvironmental, "IsEnvironmental", ", ");
    sb, connector := AppendPart(sb, connector, d.isHtml, "IsHtml", ", ");
    sb, connector := AppendPart(sb, connector, !d.isHtml && d.isMultiline, "IsMultiline", ", ");
    sb, connector := AppendPart(sb, connector, d.HasNestedSettingDescriptors(), "HasNestedSettingDescriptors(" + Digits(d.NestedCount()) + ")", ", ");
    RenderWritten(d, orderText, (sb, connector));
    return sb;
  }

  /** The eleven slots one by one. */
  lemma SlotsAt(d: SettingDescriptor, orderText: string)
    ensures |Slots(d, orderText)| == 11
    ensures Slots(d, orderText)[0] == Part(!IsNullOrEmpty(d.name), "Name:" + d.name.GetOr(""))
    ensures Slots(d, orderText)[1] == Part(!IsNullOrEmpty(d.displayName), "DisplayName:" + d.displayName.GetOr(""))
    ensures Slots(d, orderText)[2] == Part(!IsNullOrEmpty(d.description), "Description:" + d.description.GetOr(""))
    ensures Slots(d, orderText)[3] == Part(d.order > 0.0, "Order:" + orderText)
    ensures Slots(d, orderText)[4] == Part(!IsNullOrEmpty(d.helpId), "HelpId:" + d.helpId.GetOr(""))
    ensures Slots(d, orderText)[5] == Part(d.isRequired, "IsRequired")
    ensures Slots(d, orderText)[6] == Part(d.isSecure, "IsSecure")
    ensures Slots(d, orderText)[7] == Part(d.isEnvironmental, "IsEnvironmental")
    ensures Slots(d, orderText)[8] == Part(d.isHtml, "IsHtml")
    ensures Slots(d, orderText)[9] == Part(!d.isHtml && d.isMultiline, "IsMultiline")
    ensures Slots(d, orderText)[10] == Part(d.HasNestedSettingDescriptors(), "HasNestedSettingDescriptors(" + Digits(d.NestedCount()) + ")")
  {
  }

  // ---------------------------------------------------------------------------
  // What ToString shows
  // ---------------------------------------------------------------------------

  /** No slot of ToString is set. */
  predicate NothingToShow(d: SettingDescriptor) {
    IsNullOrEmpty(d.name) && IsNullOrEmpty(d.displayName) && IsNullOrEmpty(d.description) &&
    d.order <= 0.0 && IsNullOrEmpty(d.helpId) && !d.isRequired && !d.isSecure &&
    !d.isEnvironmental && !d.isHtml && !d.isMultiline && !d.HasNestedSettingDescriptors()
  }

  /** ToString is empty exactly when no slot is set. */
  lemma ToStringEmpty(d: SettingDescriptor, orderText: string)
    ensures JoinWith(Shown(Slots(d, orderText)), ", ") == "" <==> NothingToShow(d)
  {
    var s := Slots(d, orderText);
    SlotsAt(d, orderText);
    ShownNone(s);
    JoinWithEmpty(Shown(s), ", ");
  }

  /** When a name is set, ToString begins with it: the first slot has no connector. */
  lemma ToStringStartsWithName(d: SettingDescriptor, orderText: string)
    requires !IsNullOrEmpty(d.name)
    ensures StartsWith(JoinWith(Shown(Slots(d, orderText)), ", "), "Name:" + d.name.value)
  {
    var s := Slots(d, orderText);
    ShownFirst(s);
    ShownNone(s);
    JoinWithEmpty(Shown(s), ", ");
  }

  /** IsHtml is shown exactly when it is set. */
  lemma ToStringHtml(d: SettingDescriptor, orderText: string)
    ensures "IsHtml" in Shown(Slots(d, orderText)) <==> d.isHtml
  {
    var s := Slots(d, orderText);
    SlotsAt(d, orderText);
    ShownHas(s, "IsHtml");
    if "IsHtml" in Shown(s) {
      var i :| 0 <= i < |s| && s[i].shown && s[i].text == "IsHtml";
      assert s[i].text[0] == 'I' && s[i].text[2] == 'H';
    }
  }

  /** IsMultiline is shown exactly when it is set and IsHtml is not: the two
      are alternatives, IsHtml winning. */
  lemma ToStringMultiline(d: SettingDescriptor, orderText: string)
    ensures "IsMultiline" in Shown(Slots(d, orderText)) <==> d.isMultiline && !d.isHtml
  {
    var s := Slots(d, orderText);
    SlotsAt(d, orderText);
    ShownHas(s, "IsMultiline");
    if "IsMultiline" in Shown(s) {
      var i :| 0 <= i < |s| && s[i].shown && s[i].text == "IsMultiline";
      assert s[i].text[0] == 'I' && s[i].text[2] == 'M';
    }
  }

  /** The order is shown exactly when it is positive. */
  lemma ToStringOrder(d: SettingDescriptor, orderText: string)
    ensures "Order:" + orderText in Shown(Slots(d, orderText)) <==> d.order > 0.0
  {
    var s := Slots(d, orderText);
    SlotsAt(d, orderText);
    ShownHas(s, "Order:" + orderText);
    if "Order:" + orderText in Shown(s) {
      var i :| 0 <= i < |s| && s[i].shown && s[i].text == "Order:" + orderText;
      assert s[i].text[0] == 'O';
    }
  }
}
