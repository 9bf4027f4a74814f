/** The metadata validator for attributes (AttributeValidator.validate and
    validateDefaultValue), as its tests pin it down: the name character set,
    default values that must parse under the declared type, the allowed type
    transitions of a stored attribute, and the mappedBy and orderBy references
    into the referenced entity type. Checks run one after the other and the
    first failing check decides the error. */
module AttributeValidation {
  import opened Wrappers
  import opened Strings
  import opened Metadata

  predicate IsNameChar(c: char) {
    'a' <= c <= 'z' || 'A' <= c <= 'Z' || IsDigit(c) || c == '_' || c == '#'
  }

  /** A name of one or more letters, digits, underscores and hashes. */
  predicate ValidName(name: string) {
    |name| > 0 && forall i :: 0 <= i < |name| ==> IsNameChar(name[i])
  }

  /** The library syntax checks default-value validation uses: hyperlink
      syntax, and the date and date-time formats. */
  datatype Syntax = Syntax(
    isHyperlink: string -> bool, isDate: string -> bool, isDateTime: string -> bool)

  /** The syntax checks agree with the examples the validator's tests give. */
  predicate SyntaxAgreesWithTests(syn: Syntax) {
    && !syn.isHyperlink("test^") && syn.isHyperlink("http://www.molgenis.org")
    && !syn.isDate("test") && syn.isDate("01-01-2016")
    && !syn.isDateTime("test") && syn.isDateTime("2016-10-10T12:00:10+0000")
  }

  /** The allowed-transition relation forbids the transitions the tests show
      to be rejected. */
  predicate TransitionsAgreeWithTests(allowed: (AttributeType, AttributeType) -> bool) {
    !allowed(Bool, OneToMany) && !allowed(Categorical, Hyperlink) && !allowed(Compound, File)
  }

  datatype ValidationError =
    | InvalidName(name: string)
    | UnparseableDate(value: string)
    | InvalidHyperlink(value: string)
    | InvalidEnumDefault(value: string, enumName: string, options: seq<string>)
    | NumberFormat(value: string)
    | DisallowedTransition(attrName: string, from: AttributeType, to: AttributeType)
    | InvalidMappedByType(mappedBy: string, dataType: AttributeType)
    | MappedByNotInEntity(mappedBy: string, entity: string)
    | UnknownOrderByAttribute(refEntity: string, orderAttr: string, entity: string, attr: string, sort: Sort)
      /** A mappedBy or orderBy on an attribute without a ref entity: the
          validator dereferences the missing entity type. */
    | NullRefEntity(attrName: string)

  function DirectionName(d: Direction): string {
    match d
    case Asc => "ASC"
    case Desc => "DESC"
  }

  /** The "attr,DIR" text of each order, in order. */
  function OrderStrings(orders: seq<Order>): (r: seq<string>)
    ensures |r| == |orders|
    ensures forall i :: 0 <= i < |orders| ==> r[i] == orders[i].attr + "," + DirectionName(orders[i].direction)
  {
    if orders == [] then []
    else [orders[0].attr + "," + DirectionName(orders[0].direction)] + OrderStrings(orders[1..])
  }

  /** Sort.toString: "attr,DIR" per order, separated by ';'. */
  function SortToString(s: Sort): string {
    Join(OrderStrings(s.orders), ";")
  }

  /** The exception message of each error. For an unparseable date it is the
      message of the wrapped parse exception; for the dereferenced missing
      entity type it is the text of a NullPointerException. */
  function Message(e: ValidationError): string {
    match e
    case InvalidName(n) =>
      "Invalid characters in: [" + n
      + "] Only letters (a-z, A-Z), digits (0-9), underscores (_) and hashes (#) are allowed."
    case UnparseableDate(v) => "Unparseable date: \"" + v + "\""
    case InvalidHyperlink(v) => "Default value [" + v + "] is not a valid hyperlink."
    case InvalidEnumDefault(v, n, opts) =>
      "Invalid default value [" + v + "] for enum [" + n + "] value must be one of " + ListToString(opts)
    case NumberFormat(v) => "NumberFormatException For input string: \"" + v + "\""
    case DisallowedTransition(n, from, to) =>
      "Attribute data type update from [" + TypeName(from) + "] to [" + TypeName(to) + "] not allowed"
    case InvalidMappedByType(m, t) => "Invalid mappedBy attribute [" + m + "] data type [" + TypeName(t) + "]."
    case MappedByNotInEntity(m, en) => "mappedBy attribute [" + m + "] is not part of entity [" + en + "]."
    case UnknownOrderByAttribute(re, oa, en, an, s) =>
      "Unknown entity [" + re + "] attribute [" + oa + "] referred to by entity [" + en
      + "] attribute [" + an + "] sortBy [" + SortToString(s) + "]"
    case NullRefEntity(_) => "java.lang.NullPointerException"
  }

  /** The first check that fails decides the outcome. */
  function Then(first: Outcome<ValidationError>, next: Outcome<ValidationError>): Outcome<ValidationError> {
    if first.Fail? then first else next
  }

  function NameCheck(attr: Attribute): (r: Outcome<ValidationError>)
    ensures r.Pass? <==> ValidName(attr.name)
    ensures r.Fail? ==> r.error == InvalidName(attr.name)
  {
    if ValidName(attr.name) then Pass else Fail(InvalidName(attr.name))
  }

  /** validateDefaultValue: an INT or LONG default must parse as a Java int or
      long, an ENUM default must be one of the options, and HYPERLINK, DATE and
      DATE_TIME defaults must satisfy the library syntax. */
  function DefaultValueCheck(attr: Attribute, syn: Syntax): (r: Outcome<ValidationError>)
    ensures r.Pass? <==> DefaultValueOk(attr, syn)
  {
    match attr.defaultValue
    case None => Pass
    case Some(v) =>
      match attr.dataType
      case Int => if ParseJavaInteger(v, INT_MIN, INT_MAX).Some? then Pass else Fail(NumberFormat(v))
      case Long => if ParseJavaInteger(v, LONG_MIN, LONG_MAX).Some? then Pass else Fail(NumberFormat(v))
      case Enum =>
        if v in attr.enumOptions then Pass else Fail(InvalidEnumDefault(v, attr.name, attr.enumOptions))
      case Hyperlink => if syn.isHyperlink(v) then Pass else Fail(InvalidHyperlink(v))
      case Date => if syn.isDate(v) then Pass else Fail(UnparseableDate(v))
      case DateTime => if syn.isDateTime(v) then Pass else Fail(UnparseableDate(v))
      case _ => Pass
  }

  /** A stored attribute with the same identifier may change type only along
      an allowed transition. */
  function TransitionCheck(
    attr: Attribute, stored: Option<Attribute>, allowed: (AttributeType, AttributeType) -> bool)
    : Outcome<ValidationError>
  {
    match stored
    case None => Pass
    case Some(current) =>
      if current.dataType == attr.dataType || allowed(current.dataType, attr.dataType) then Pass
      else Fail(DisallowedTransition(attr.name, current.dataType, attr.dataType))
  }

  /** The mappedBy attribute must be an XREF (checked first) and must be an
      attribute of the ref entity. */
  function MappedByCheck(attr: Attribute): (r: Outcome<ValidationError>)
    ensures r.Pass? <==> MappedByOk(attr)
  {
    match attr.mappedBy
    case None => Pass
    case Some(m) =>
      if m.dataType != Xref then Fail(InvalidMappedByType(m.name, m.dataType))
      else
        match attr.refEntity
        case None => Fail(NullRefEntity(attr.name))
        case Some(e) =>
          if GetAttribute(e, m.name).None? then Fail(MappedByNotInEntity(m.name, e.name)) else Pass
  }

  /** The first order of the sort that names no attribute of the entity type. */
  function FirstUnknownOrder(orders: seq<Order>, e: EntityType): (r: Option<Order>)
    ensures r.None? <==> forall i :: 0 <= i < |orders| ==> GetAttribute(e, orders[i].attr).Some?
    ensures r.Some? ==> r.value in orders && GetAttribute(e, r.value.attr).None?
  {
    if orders == [] then None
    else if GetAttribute(e, orders[0].attr).None? then Some(orders[0])
    else FirstUnknownOrder(orders[1..], e)
  }

  function OrderByCheck(attr: Attribute): Outcome<ValidationError> {
    match attr.orderBy
    case None => Pass
    case Some(s) =>
      match attr.refEntity
      case None => Fail(NullRefEntity(attr.name))
      case Some(e) =>
        match FirstUnknownOrder(s.orders, e)
        case None => Pass
        case Some(o) => Fail(UnknownOrderByAttribute(e.name, o.attr, attr.ownerName, attr.name, s))
  }

  /** The result of validate: the outcome, and the identifiers whose stored
      attribute was fetched. */
  datatype Validation = Validation(outcome: Outcome<ValidationError>, lookups: seq<string>)

  /** validate(attr): name, default value, then one fetch of the stored
      attribute by identifier (stored is that store, keyed by identifier) for
      the transition check, then mappedBy and orderBy. */
  function Validate(
    attr: Attribute, stored: map<string, Attribute>,
    allowed: (AttributeType, AttributeType) -> bool, syn: Syntax)
    : (v: Validation)
    ensures v.lookups == [] || v.lookups == [attr.identifier]
  {
    var early := Then(NameCheck(attr), DefaultValueCheck(attr, syn));
    if early.Fail? then Validation(early, [])
    else
      var current := if attr.identifier in stored then Some(stored[attr.identifier]) else None;
      Validation(
        Then(TransitionCheck(attr, current, allowed), Then(MappedByCheck(attr), OrderByCheck(attr))),
        [attr.identifier])
  }

  /** The default-value rule: an INT or LONG default is a number in range,
      an ENUM default one of the options, a HYPERLINK, DATE or DATE_TIME
      default of the library's syntax. */
  predicate DefaultValueOk(attr: Attribute, syn: Syntax) {
    attr.defaultValue.Some? ==>
      var v := attr.defaultValue.value;
      && (attr.dataType == Int ==> ParseJavaInteger(v, INT_MIN, INT_MAX).Some?)
      && (attr.dataType == Long ==> ParseJavaInteger(v, LONG_MIN, LONG_MAX).Some?)
      && (attr.dataType == Enum ==> v in attr.enumOptions)
      && (attr.dataType == Hyperlink ==> syn.isHyperlink(v))
      && (attr.dataType == Date ==> syn.isDate(v))
      && (attr.dataType == DateTime ==> syn.isDateTime(v))
  }

  /** The transition rule: a stored attribute keeps its type or changes it
      along an allowed transition. */
  predicate TransitionOk(attr: Attribute, stored: map<string, Attribute>, allowed: (AttributeType, AttributeType) -> bool) {
    attr.identifier in stored ==>
      var from := stored[attr.identifier].dataType;
      from == attr.dataType || allowed(from, attr.dataType)
  }

  /** The mappedBy rule: an XREF attribute of the ref entity. */
  predicate MappedByOk(attr: Attribute) {
    attr.mappedBy.Some? ==>
      && attr.mappedBy.value.dataType == Xref
      && attr.refEntity.Some?
      && GetAttribute(attr.refEntity.value, attr.mappedBy.value.name).Some?
  }

  /** The orderBy rule: every order names an attribute of the ref entity. */
  predicate OrderByOk(attr: Attribute) {
    attr.orderBy.Some? ==>
      && attr.refEntity.Some?
      && forall o :: o in attr.orderBy.value.orders ==> GetAttribute(attr.refEntity.value, o.attr).Some?
  }

  /** What a valid attribute is, stated independently of the order of the
      checks. */
  predicate Satisfies(
    attr: Attribute, stored: map<string, Attribute>,
    allowed: (AttributeType, AttributeType) -> bool, syn: Syntax)
  {
    && ValidName(attr.name)
    && DefaultValueOk(attr, syn)
    && TransitionOk(attr, stored, allowed)
    && MappedByOk(attr)
    && OrderByOk(attr)
  }

  lemma OrderByCheckCorrect(attr: Attribute)
    ensures OrderByCheck(attr).Pass? <==> OrderByOk(attr)
  {
    if attr.orderBy.Some? && attr.refEntity.Some? {
      var orders := attr.orderBy.value.orders;
      var e := attr.refEntity.value;
      if FirstUnknownOrder(orders, e).None? {
        forall o | o in orders ensures GetAttribute(e, o.attr).Some? {
          var i :| 0 <= i < |orders| && orders[i] == o;
        }
      }
    }
  }

  /** validate passes exactly on the attributes that satisfy every rule, and
      a passing validation fetches the stored attribute exactly once. */
  lemma ValidateCorrect(
    attr: Attribute, stored: map<string, Attribute>,
    allowed: (AttributeType, AttributeType) -> bool, syn: Syntax)
    ensures Validate(attr, stored, allowed, syn).outcome.Pass? <==> Satisfies(attr, stored, allowed, syn)
    ensures Validate(attr, stored, allowed, syn).outcome.Pass? ==>
      Validate(attr, stored, allowed, syn).lookups == [attr.identifier]
  {
    OrderByCheckCorrect(attr);
    var current := if attr.identifier in stored then Some(stored[attr.identifier]) else None;
    assert TransitionCheck(attr, current, allowed).Pass? <==> TransitionOk(attr, stored, allowed);
  }

  /** An invalid name is reported before anything else, without any fetch. */
  lemma NameCheckedFirst(
    attr: Attribute, stored: map<string, Attribute>,
    allowed: (AttributeType, AttributeType) -> bool, syn: Syntax)
    requires !ValidName(attr.name)
    ensures Validate(attr, stored, allowed, syn) == Validation(Fail(InvalidName(attr.name)), [])
  {
  }

  /** A mappedBy attribute of the wrong type is reported as such whatever the
      ref entity holds: the type is checked before the membership. */
  lemma MappedByTypeCheckedFirst(
    attr: Attribute, stored: map<string, Attribute>,
    allowed: (AttributeType, AttributeType) -> bool, syn: Syntax)
    requires ValidName(attr.name) && attr.defaultValue.None? && attr.identifier !in stored
    requires attr.mappedBy.Some? && attr.mappedBy.value.dataType != Xref
    ensures Validate(attr, stored, allowed, syn).outcome
      == Fail(InvalidMappedByType(attr.mappedBy.value.name, attr.mappedBy.value.dataType))
  {
  }

  /** The transitions BOOL to ONE_TO_MANY, CATEGORICAL to HYPERLINK and
      COMPOUND to FILE of a stored attribute are rejected. */
  lemma DisallowedTransitionsRejected(
    attr: Attribute, stored: map<string, Attribute>,
    allowed: (AttributeType, AttributeType) -> bool, syn: Syntax)
    requires TransitionsAgreeWithTests(allowed)
    requires ValidName(attr.name) && attr.defaultValue.None? && attr.identifier in stored
    requires var from := stored[attr.identifier].dataType;
      (from, attr.dataType) in {(Bool, OneToMany), (Categorical, Hyperlink), (Compound, File)}
    ensures Validate(attr, stored, allowed, syn).outcome
      == Fail(DisallowedTransition(attr.name, stored[attr.identifier].dataType, attr.dataType))
  {
  }

  /** An INT or LONG default value is accepted exactly when it is the decimal
      text of a number in the type's range. */
  lemma IntegerDefaultValues(attr: Attribute, syn: Syntax, i: int)
    requires attr.dataType == Int || attr.dataType == Long
    requires attr.defaultValue == Some(IntToString(i))
    ensures attr.dataType == Int ==>
      (DefaultValueCheck(attr, syn).Pass? <==> INT_MIN <= i <= INT_MAX)
    ensures attr.dataType == Long ==>
      (DefaultValueCheck(attr, syn).Pass? <==> LONG_MIN <= i <= LONG_MAX)
  {
    var s := IntToString(i);
    ParseIntToString(i, i, i);
    assert ParseJavaInteger(s, i, i) == Some(i);
    if INT_MIN <= i <= INT_MAX {
      ParseIntToString(i, INT_MIN, INT_MAX);
    }
    if LONG_MIN <= i <= LONG_MAX {
      ParseIntToString(i, LONG_MIN, LONG_MAX);
    }
  }

  lemma DigitsOf123456()
    ensures AllDigits("123456") && DigitsValue("123456") == 123456
  {
    assert "123456"[..5] == "12345";
    assert "12345"[..4] == "1234";
    assert "1234"[..3] == "123";
    assert "123"[..2] == "12";
    assert "12"[..1] == "1";
    assert "1"[..0] == "";
  }

  /** The default-value examples of the validator's tests. */
  lemma DefaultValueExamples(attr: Attribute, syn: Syntax)
    requires SyntaxAgreesWithTests(syn)
    ensures attr.dataType in {Int, Long} && attr.defaultValue == Some("test") ==>
      DefaultValueCheck(attr, syn) == Fail(NumberFormat("test"))
    ensures attr.dataType == Int && attr.defaultValue == Some("1.0") ==>
      DefaultValueCheck(attr, syn) == Fail(NumberFormat("1.0"))
    ensures attr.dataType in {Int, Long} && attr.defaultValue == Some("123456") ==>
      DefaultValueCheck(attr, syn) == Pass
    ensures attr.dataType == Enum && attr.enumOptions == ["a", "b", "c"] && attr.defaultValue == Some("test") ==>
      DefaultValueCheck(attr, syn) == Fail(InvalidEnumDefault("test", attr.name, ["a", "b", "c"]))
    ensures attr.dataType == Enum && attr.enumOptions == ["a", "b", "c"] && attr.defaultValue == Some("b") ==>
      DefaultValueCheck(attr, syn) == Pass
    ensures attr.dataType == Hyperlink && attr.defaultValue == Some("test^") ==>
      DefaultValueCheck(attr, syn) == Fail(InvalidHyperlink("test^"))
    ensures attr.dataType in {Date, DateTime} && attr.defaultValue == Some("test") ==>
      DefaultValueCheck(attr, syn) == Fail(UnparseableDate("test"))
  {
    ParseRejectsNonDigit("test", 0, INT_MIN, INT_MAX);
    ParseRejectsNonDigit("test", 0, LONG_MIN, LONG_MAX);
    ParseRejectsNonDigit("1.0", 1, INT_MIN, INT_MAX);
    DigitsOf123456();
  }

  /** The short messages of the default-value tests. */
  lemma DefaultValueMessages()
    ensures Message(UnparseableDate("test")) == "Unparseable date: \"test\""
    ensures Message(NumberFormat("test")) == "NumberFormatException For input string: \"test\""
    ensures Message(NumberFormat("1.0")) == "NumberFormatException For input string: \"1.0\""
  {
  }

  /** The rule text of the orderBy message lists a one-order sort as
      "attr,DIR". */
  lemma SortTextExample()
    ensures SortToString(Sort([Order("fail", Asc)])) == "fail,ASC"
  {
    var orders := [Order("fail", Asc)];
    assert orders[1..] == [];
    assert "fail" + "," + "ASC" == "fail,ASC";
    assert OrderStrings(orders) == ["fail,ASC"];
  }

  /** The option list of the enum message is rendered "[a, b, c]". */
  lemma OptionListExample()
    ensures ListToString(["a", "b", "c"]) == "[a, b, c]"
  {
    assert Join(["c"], ", ") == "c";
    assert Join(["b", "c"], ", ") == "b, c";
  }

  /** The name check of the tests: "invalid.name" is refused for its '.'. */
  lemma InvalidNameExample()
    ensures !ValidName("invalid.name") && ValidName("attrName") && ValidName("mappedByAttrName")
  {
    assert "invalid.name"[7] == '.';
  }
}
