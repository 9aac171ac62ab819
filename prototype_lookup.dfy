/**
  The schedule lookup as the page writes it:
  `examSchedule[category as keyof typeof examSchedule] || null`. The cast has
  no effect at run time, so this is a JavaScript property read on an object
  literal, which also finds the properties the literal inherits from
  Object.prototype (section 20.1.3 of ECMA-262, and the `__proto__` accessor
  and the legacy getter/setter helpers of its Annex B). Every one of those is
  truthy, so `|| null` lets it through.
 */
module PrototypeLookup {
  import opened Wrappers
  import Schedule

  /** The names of Object.prototype's properties. */
  const ObjectPrototypeMembers: set<string> :=
    {"constructor", "hasOwnProperty", "isPrototypeOf", "propertyIsEnumerable",
     "toLocaleString", "toString", "valueOf", "__proto__",
     "__defineGetter__", "__defineSetter__", "__lookupGetter__", "__lookupSetter__"}

  /** The JavaScript values the lookup can produce. */
  datatype JsValue =
    | Undefined
    | Null
    | ScheduleEntry(info: Schedule.ExamInfo)  // an own property of the literal
    | Inherited(name: string)                 // a function, or Object.prototype itself

  predicate Truthy(v: JsValue) {
    v.ScheduleEntry? || v.Inherited?
  }

  /** `examSchedule[key]`: own properties first, then the prototype chain. */
  function PropertyGet(key: string): (v: JsValue)
    ensures v.ScheduleEntry? <==> key in Schedule.Labels(Schedule.ExamSchedule)
    ensures v.Inherited? ==> key in ObjectPrototypeMembers
    ensures v.Undefined? <==> key !in Schedule.Labels(Schedule.ExamSchedule) && key !in ObjectPrototypeMembers
    ensures v.ScheduleEntry? ==> Schedule.GetExamInfo(key) == Some(v.info)
    ensures key in ObjectPrototypeMembers && key !in Schedule.Labels(Schedule.ExamSchedule) ==> v == Inherited(key)
  {
    match Schedule.LookupIn(Schedule.ExamSchedule, key)
    case Some(info) => ScheduleEntry(info)
    case None => if key in ObjectPrototypeMembers then Inherited(key) else Undefined
  }

  /** getExamInfo as written: the property read followed by `|| null`. */
  function GetExamInfoAsWritten(category: string): (v: JsValue)
    ensures Truthy(v) || v == Null
    ensures v == Null <==> !Truthy(PropertyGet(category))
    ensures Truthy(PropertyGet(category)) ==> v == PropertyGet(category)
  {
    var v := PropertyGet(category);
    if Truthy(v) then v else Null
  }

  /** No category label is the name of an Object.prototype property. */
  lemma LabelsAvoidPrototype()
    ensures Schedule.Labels(Schedule.ExamSchedule) !! ObjectPrototypeMembers
  {
  }

  /** A record whose category is "toString" is not in the table, yet the
      as-written lookup returns a truthy value for it, so the page's
      `getExamInfo(searchResult.category) && ...` shows the exam panel, with
      every field empty. */
  lemma InheritedNameShowsPanel()
    ensures "toString" !in Schedule.Labels(Schedule.ExamSchedule)
    ensures Truthy(GetExamInfoAsWritten("toString"))
    ensures Schedule.GetExamInfo("toString").None?
  {
  }

  /** The inherited names are exactly where the as-written lookup and the
      corrected one (Schedule.GetExamInfo) part ways: on every other string
      they agree, an entry for an entry and null for none. */
  lemma AsWrittenAgreesElsewhere(category: string)
    ensures category !in ObjectPrototypeMembers ==>
      (GetExamInfoAsWritten(category) == Null <==> Schedule.GetExamInfo(category).None?)
    ensures category !in ObjectPrototypeMembers && Schedule.GetExamInfo(category).Some? ==>
      GetExamInfoAsWritten(category) == ScheduleEntry(Schedule.GetExamInfo(category).value)
    ensures category in ObjectPrototypeMembers ==>
      GetExamInfoAsWritten(category) == Inherited(category) && Schedule.GetExamInfo(category).None?
  {
    LabelsAvoidPrototype();
  }
}
