/** SettingDescriptor of Alkami.Framework.Settings: the older generation of
    the descriptor attribute, without nested descriptors and without the
    IsMultiline and IsHtml flags. */
module FrameworkDescriptor {
  import opened Wrappers
  import opened Strings
  import opened Values
  import Descriptor

  type PropertyInfo = Descriptor.PropertyInfo

  /** The attribute's fields; strings may be null (None). */
  datatype SettingDescriptor = SettingDescriptor(
    name: Option<string>,
    displayName: Option<string>,
    description: Option<string>,
    order: real,
    helpId: Option<string>,
    isRequired: bool,
    isSecure: bool,
    isEnvironmental: bool,
    defaultValue: Value,
    property: Option<PropertyInfo>)

  /** A descriptor as `new SettingDescriptor()` creates it. */
  const Blank := SettingDescriptor(None, None, None, 0.0, None, false, false, false, Null, None)

  predicate IsNullOrEmpty(s: Option<string>) {
    Descriptor.IsNullOrEmpty(s)
  }

  /** SetPropertyInfo: a null property is rejected; otherwise only Property changes. */
  function SetPropertyInfo(d: SettingDescriptor, propertyInfo: Option<PropertyInfo>): (r: Result<SettingDescriptor>)
    ensures propertyInfo.None? <==> r.Err?
    ensures r.Err? ==> r.error == ArgumentNull("propertyInfo")
    ensures r.Ok? ==> r.value.property == propertyInfo && r.value.(property := d.property) == d
  {
    if propertyInfo.None? then Err(ArgumentNull("propertyInfo"))
    else Ok(d.(property := propertyInfo))
  }

  // ---------------------------------------------------------------------------
  // ToString
  // ---------------------------------------------------------------------------

  /** The slots of ToString in order, each shown when its property is set:
      Name, DisplayName, Description, Order (when positive), HelpId,
      IsRequired, IsSecure and IsEnvironmental. orderText stands for
      Order.ToString(). */
  function Slots(d: SettingDescriptor, orderText: string): seq<Part> {
    [Part(!IsNullOrEmpty(d.name), "Name:" + d.name.GetOr(""))] +
    [Part(!IsNullOrEmpty(d.displayName), "DisplayName:" + d.displayName.GetOr(""))] +
    [Part(!IsNullOrEmpty(d.description), "Description:" + d.description.GetOr(""))] +
    [Part(d.order > 0.0, "Order:" + orderText)] +
    [Part(!IsNullOrEmpty(d.helpId), "HelpId:" + d.helpId.GetOr(""))] +
    [Part(d.isRequired, "IsRequired")] +
    [Part(d.isSecure, "IsSecure")] +
    [Part(d.isEnvironmental, "IsEnvironmental")]
  }

  /** Eight steps from the empty builder write the shown parts joined by sep. */
  lemma WriteEight(p0: Part, p1: Part, p2: Part, p3: Part, p4: Part, p5: Part, p6: Part, p7: Part, sep: string)
    ensures Step(Step(Step(Step(Step(Step(Step(Step(("", ""), p0, sep), p1, sep), p2, sep), p3, sep), p4, sep), p5, sep), p6, sep), p7, sep) == Written([p0] + [p1] + [p2] + [p3] + [p4] + [p5] + [p6] + [p7], sep)
  {
    assert [] + [p0] == [p0];
    StepWritten([], p0, sep);
    StepWritten([p0], p1, sep);
    StepWritten([p0] + [p1], p2, sep);
    StepWritten([p0] + [p1] + [p2], p3, sep);
    StepWritten([p0] + [p1] + [p2] + [p3], p4, sep);
    StepWritten([p0] + [p1] + [p2] + [p3] + [p4], p5, sep);
    StepWritten([p0] + [p1] + [p2] + [p3] + [p4] + [p5], p6, sep);
    StepWritten([p0] + [p1] + [p2] + [p3] + [p4] + [p5] + [p6], p7, sep);
  }

  /** The builder state after the eight slots of ToString is the shown slots
      joined by ", ". */
  lemma RenderWritten(d: SettingDescriptor, orderText: string, state: (string, string))
    requires state == Step(Step(Step(Step(Step(Step(Step(Step(("", ""), Part(!IsNullOrEmpty(d.name), "Name:" + d.name.GetOr("")), ", "), Part(!IsNullOrEmpty(d.displayName), "DisplayName:" + d.displayName.GetOr("")), ", "), Part(!IsNullOrEmpty(d.description), "Description:" + d.description.GetOr("")), ", "), Part(d.order > 0.0, "Order:" + orderText), ", "), Part(!IsNullOrEmpty(d.helpId), "HelpId:" + d.helpId.GetOr("")), ", "), Part(d.isRequired, "IsRequired"), ", "), Part(d.isSecure, "IsSecure"), ", "), Part(d.isEnvironmental, "IsEnvironmental"), ", ")
    ensures state == Written(Slots(d, orderText), ", ")
  {
    WriteEight(Part(!IsNullOrEmpty(d.name), "Name:" + d.name.GetOr("")), Part(!IsNullOrEmpty(d.displayName), "DisplayName:" + d.displayName.GetOr("")), Part(!IsNullOrEmpty(d.description), "Description:" + d.description.GetOr("")), Part(d.order > 0.0, "Order:" + orderText), Part(!IsNullOrEmpty(d.helpId), "HelpId:" + d.helpId.GetOr("")), Part(d.isRequired, "IsRequired"), Part(d.isSecure, "IsSecure"), Part(d.isEnvironmental, "IsEnvironmental"), ", ");
  }

  /** ToString: every slot that is set is appended behind the connector, which
      is empty before the first one and ", " after it. */
  method ToString(d: SettingDescriptor, orderText: string) returns (r: string)
    ensures r == JoinWith(Shown(Slots(d, orderText)), ", ")
  {
    var sb, connector := "", "";
    sb, connector := AppendPart(sb, connector, !IsNullOrEmpty(d.name), "Name:" + d.name.GetOr(""), ", ");
    sb, connector := AppendPart(sb, connector, !IsNullOrEmpty(d.displayName), "DisplayName:" + d.displayName.GetOr(""), ", ");
    sb, connector := AppendPart(sb, connector, !IsNullOrEmpty(d.description), "Description:" + d.description.GetOr(""), ", ");
    sb, connector := AppendPart(sb, connector, d.order > 0.0, "Order:" + orderText, ", ");
    sb, connector := AppendPart(sb, connector, !IsNullOrEmpty(d.helpId), "HelpId:" + d.helpId.GetOr(""), ", ");
    sb, connector := AppendPart(sb, connector, d.isRequired, "IsRequired", ", ");
    sb, connector := AppendPart(sb, connector, d.isSecure, "IsSecure", ", ");
    sb, connector := AppendPart(sb, connector, d.isEnvironmental, "IsEnvironmental", ", ");
    RenderWritten(d, orderText, (sb, connector));
    return sb;
  }

  /** The eight slots one by one. */
  lemma SlotsAt(d: SettingDescriptor, orderText: string)
    ensures |Slots(d, orderText)| == 8
    ensures Slots(d, orderText)[0] == Part(!IsNullOrEmpty(d.name), "Name:" + d.name.GetOr(""))
    ensures Slots(d, orderText)[1] == Part(!IsNullOrEmpty(d.displayName), "DisplayName:" + d.displayName.GetOr(""))
    ensures Slots(d, orderText)[2] == Part(!IsNullOrEmpty(d.description), "Description:" + d.description.GetOr(""))
    ensures Slots(d, orderText)[3] == Part(d.order > 0.0, "Order:" + orderText)
    ensures Slots(d, orderText)[4] == Part(!IsNullOrEmpty(d.helpId), "HelpId:" + d.helpId.GetOr(""))
    ensures Slots(d, orderText)[5] == Part(d.isRequired, "IsRequired")
    ensures Slots(d, orderText)[6] == Part(d.isSecure, "IsSecure")
    ensures Slots(d, orderText)[7] == Part(d.isEnvironmental, "IsEnvironmental")
  {
  }

  /** No slot of ToString is set. */
  predicate NothingToShow(d: SettingDescriptor) {
    IsNullOrEmpty(d.name) && IsNullOrEmpty(d.displayName) && IsNullOrEmpty(d.description) &&
    d.order <= 0.0 && IsNullOrEmpty(d.helpId) && !d.isRequired && !d.isSecure && !d.isEnvironmental
  }

  /** ToString is empty exactly when no slot is set. */
  lemma ToStringEmpty(d: SettingDescriptor, orderText: string)
    ensures JoinWith(Shown(Slots(d, orderText)), ", ") == "" <==> NothingToShow(d)
  {
    var s := Slots(d, orderText);
    SlotsAt(d, orderText);
    ShownNone(s);
    JoinWithEmpty(Shown(s), ", ");
  }

  /** When a name is set, ToString begins with it. */
  lemma ToStringStartsWithName(d: SettingDescriptor, orderText: string)
    requires !IsNullOrEmpty(d.name)
    ensures StartsWith(JoinWith(Shown(Slots(d, orderText)), ", "), "Name:" + d.name.value)
  {
    var s := Slots(d, orderText);
    ShownFirst(s);
    ShownNone(s);
    JoinWithEmpty(Shown(s), ", ");
  }

  /** The order is shown exactly when it is positive. */
  lemma ToStringOrder(d: SettingDescriptor, orderText: string)
    ensures "Order:" + orderText in Shown(Slots(d, orderText)) <==> d.order > 0.0
  {
    var s := Slots(d, orderText);
    SlotsAt(d, orderText);
    ShownHas(s, "Order:" + orderText);
    if "Order:" + orderText in Shown(s) {
      var i :| 0 <= i < |s| && s[i].shown && s[i].text == "Order:" + orderText;
      assert s[i].text[0] == 'O';
    }
  }

  /** IsRequired is shown exactly when it is set. */
  lemma ToStringRequired(d: SettingDescriptor, orderText: string)
    ensures "IsRequired" in Shown(Slots(d, orderText)) <==> d.isRequired
  {
    var s := Slots(d, orderText);
    SlotsAt(d, orderText);
    ShownHas(s, "IsRequired");
    if "IsRequired" in Shown(s) {
      var i :| 0 <= i < |s| && s[i].shown && s[i].text == "IsRequired";
      assert s[i].text[0] == 'I' && s[i].text[2] == 'R';
    }
  }

  /** IsSecure is shown exactly when it is set. */
  lemma ToStringSecure(d: SettingDescriptor, orderText: string)
    ensures "IsSecure" in Shown(Slots(d, orderText)) <==> d.isSecure
  {
    var s := Slots(d, orderText);
    SlotsAt(d, orderText);
    ShownHas(s, "IsSecure");
    if "IsSecure" in Shown(s) {
      var i :| 0 <= i < |s| && s[i].shown && s[i].text == "IsSecure";
      assert s[i].text[0] == 'I' && s[i].text[2] == 'S';
    }
  }

  /** IsEnvironmental is shown exactly when it is set. */
  lemma ToStringEnvironmental(d: SettingDescriptor, orderText: string)
    ensures "IsEnvironmental" in Shown(Slots(d, orderText)) <==> d.isEnvironmental
  {
    var s := Slots(d, orderText);
    SlotsAt(d, orderText);
    ShownHas(s, "IsEnvironmental");
    if "IsEnvironmental" in Shown(s) {
      var i :| 0 <= i < |s| && s[i].shown && s[i].text == "IsEnvironmental";
      assert s[i].text[0] == 'I' && s[i].text[2] == 'E';
    }
  }
}
