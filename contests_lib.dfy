/**
 * The contest helpers of `src/lib/contests.ts`: the logo initials, the contest type, the
 * status mapping and the two view transforms. Prize and date formatting work on floats
 * and dates and are not part of this model.
 */
module ContestsLib {
  import opened Common
  import opened JsStrings

  /** `ContestStatusEnum`. */
  datatype ContestStatus = Active | Upcoming | Judging | Escalations | Completed

  function StatusName(s: ContestStatus): string {
    match s
    case Active => "ACTIVE"
    case Upcoming => "UPCOMING"
    case Judging => "JUDGING"
    case Escalations => "ESCALATIONS"
    case Completed => "COMPLETED"
  }

  /** The own keys of the `statusMap` literal and what they map to. */
  function StatusMapEntry(status: string): Option<ContestStatus> {
    if status == "ACTIVE" then Some(Active)
    else if status == "UPCOMING" then Some(Upcoming)
    else if status == "JUDGING" then Some(Judging)
    else if status == "ESCALATIONS" then Some(Escalations)
    else if status == "COMPLETED" then Some(Completed)
    else if status == "DRAFT" then Some(Upcoming)
    else if status == "CANCELLED" then Some(Completed)
    else None
  }

  /** `mapContestStatus`: the map's entry, and `UPCOMING` for every other status. */
  function MapContestStatus(status: string): (r: ContestStatus)
    ensures StatusMapEntry(status).Some? ==> r == StatusMapEntry(status).value
    ensures StatusMapEntry(status).None? ==> r == Upcoming
  {
    StatusMapEntry(status).GetOr(Upcoming)
  }

  /**
   * The names an object literal inherits from `Object.prototype`. Reading one of them on
   * `statusMap` yields a function (or, for `__proto__`, the prototype object): truthy
   * values that are no status.
   */
  predicate IsInheritedName(name: string) {
    name in {"constructor", "__proto__", "__defineGetter__", "__defineSetter__", "__lookupGetter__",
             "__lookupSetter__", "hasOwnProperty", "isPrototypeOf", "propertyIsEnumerable",
             "toString", "toLocaleString", "valueOf"}
  }

  /** What `statusMap[status] || ContestStatusEnum.UPCOMING` evaluates to. */
  datatype Looked = Status(status: ContestStatus) | InheritedMember(name: string)

  /** `mapContestStatus` as written: a plain object is read with an arbitrary string as the key. */
  function MapContestStatusAsWritten(status: string): Looked {
    match StatusMapEntry(status)
    case Some(s) => Status(s)
    case None => if IsInheritedName(status) then InheritedMember(status) else Status(Upcoming)
  }

  /** As written, a status named like an `Object.prototype` member maps to that member instead of `UPCOMING`. */
  lemma InheritedStatusIsNoStatus()
    ensures MapContestStatusAsWritten("constructor") == InheritedMember("constructor")
    ensures MapContestStatus("constructor") == Upcoming
    ensures forall s :: !IsInheritedName(s) ==> MapContestStatusAsWritten(s) == Status(MapContestStatus(s))
  {
    assert IsInheritedName("constructor");
  }

  /** The five statuses map to themselves; DRAFT shows as UPCOMING and CANCELLED as COMPLETED. */
  lemma StatusesMapToThemselves(s: ContestStatus)
    ensures MapContestStatus(StatusName(s)) == s
    ensures MapContestStatus("DRAFT") == Upcoming && MapContestStatus("CANCELLED") == Completed
  {
  }

  /** Mapping is idempotent: every output's name maps back to that output. */
  lemma MapContestStatusIdempotent(status: string)
    ensures MapContestStatus(StatusName(MapContestStatus(status))) == MapContestStatus(status)
  {
    StatusesMapToThemselves(MapContestStatus(status));
  }

  /** `w[0]` in a string concatenation: the first character, or the text `undefined` for an empty word. */
  datatype Piece = Text(s: string) | UndefinedValue

  function FirstCharAsWritten(w: string): Piece {
    if w == "" then UndefinedValue else Text([w[0]])
  }

  /** The outcome of `getLogoFromTitle`: a logo, or the `TypeError` of calling `toUpperCase` on `NaN`. */
  datatype LogoResult = Logo(text: string) | TypeError

  /** `a + b` on two pieces: `undefined + undefined` is `NaN`, which has no `toUpperCase`. */
  function UpperConcat(a: Piece, b: Piece): LogoResult {
    match (a, b)
    case (Text(x), Text(y)) => Logo(ToUpper(x + y))
    case (Text(x), UndefinedValue) => Logo(ToUpper(x + "undefined"))
    case (UndefinedValue, Text(y)) => Logo(ToUpper("undefined" + y))
    case (UndefinedValue, UndefinedValue) => TypeError
  }

  /** `getLogoFromTitle(title)` as written. */
  function LogoAsWritten(title: string): LogoResult {
    var words := Split(title, " ");
    if |words| >= 2 then UpperConcat(FirstCharAsWritten(words[0]), FirstCharAsWritten(words[1]))
    else Logo(ToUpper(Prefix(title, 2)))
  }

  /** `getLogoFromTitle(title)` with an empty word contributing no letter. */
  function LogoFromTitle(title: string): (r: string)
    ensures |r| <= 2
    ensures forall i :: 0 <= i < |r| ==> !('a' <= r[i] <= 'z')
  {
    var words := Split(title, " ");
    if |words| >= 2 then ToUpper(Prefix(words[0], 1) + Prefix(words[1], 1))
    else ToUpper(Prefix(title, 2))
  }

  /** The split of `w0 + " " + rest`, for a word `w0` without spaces. */
  lemma SplitFirstWord(w0: string, rest: string)
    requires NoChar(w0, ' ')
    ensures Split(w0 + " " + rest, " ") == [w0] + Split(rest, " ")
  {
    assert w0 + " " + rest == w0 + (" " + rest);
    NoOccurrenceWithoutHead(w0, " " + rest, " ");
    SplitSkip(w0, " " + rest, " ");
    SplitAtSeparator(rest, " ");
    assert Split(" " + rest, " ") == [""] + Split(rest, " ");
    assert w0 + "" == w0;
  }

  /** Two leading words, the first two non-empty, give the upper-cased first letters of both. */
  lemma LogoOfTwoWords(w0: string, w1: string, rest: string)
    requires w0 != "" && w1 != "" && NoChar(w0, ' ') && NoChar(w1, ' ')
    requires rest == "" || rest[0] == ' '
    ensures LogoFromTitle(w0 + " " + w1 + rest) == [UpperChar(w0[0]), UpperChar(w1[0])]
    ensures LogoAsWritten(w0 + " " + w1 + rest) == Logo(LogoFromTitle(w0 + " " + w1 + rest))
  {
    var title := w0 + " " + w1 + rest;
    assert title == w0 + " " + (w1 + rest);
    SplitFirstWord(w0, w1 + rest);
    SplitFirstPart(w1, rest, ' ');
    var words := Split(title, " ");
    assert words[0] == w0 && words[1] == w1;
    assert Prefix(w0, 1) + Prefix(w1, 1) == [w0[0]] + [w1[0]];
  }

  /** A title without a space gives its first two characters, upper-cased (fewer when it is shorter). */
  lemma LogoOfOneWord(title: string)
    requires NoChar(title, ' ')
    ensures LogoFromTitle(title) == ToUpper(Prefix(title, 2))
    ensures LogoAsWritten(title) == Logo(LogoFromTitle(title))
  {
    SplitCharCount(title, ' ');
    NoCharCount(title, ' ');
  }

  /**
   * As written, a title of one word and a trailing space (`"Foo "`) puts the text
   * `undefined` after the first letter (`"FUNDEFINED"`); with an empty word contributing
   * no letter the logo is the first letter alone.
   */
  lemma LogoOfTrailingSpace(w: string)
    requires w != "" && NoChar(w, ' ')
    ensures LogoAsWritten(w + " ") == Logo(ToUpper([w[0]] + "undefined"))
    ensures LogoFromTitle(w + " ") == ToUpper([w[0]])
  {
    SplitFirstWord(w, "");
    assert w + " " + "" == w + " ";
    assert Split("", " ") == [""];
    assert Prefix(w, 1) + Prefix("", 1) == [w[0]];
  }

  /** As written, a title made of one space throws; with empty words contributing no letter the logo is empty. */
  lemma LogoOfSingleSpace()
    ensures LogoAsWritten(" ") == TypeError
    ensures LogoFromTitle(" ") == ""
  {
    SplitFirstWord("", "");
    assert "" + " " + "" == " ";
    assert Split(" ", " ") == ["", ""];
  }

  /** `getContestType`: the first tag, else the first word of the description, else `Smart Contract`. */
  function ContestType(tags: Option<seq<string>>, description: Option<string>): (r: string)
    ensures tags.Some? && tags.value != [] ==> r == tags.value[0]
    ensures !(tags.Some? && tags.value != []) ==> r != ""
  {
    if tags.Some? && |tags.value| > 0 then tags.value[0]
    else match description
      case None => "Smart Contract"
      case Some(d) => var first := Split(d, " ")[0]; if first != "" then first else "Smart Contract"
  }

  /** Without tags, the type is the description's first word when that is non-empty, and the default otherwise. */
  lemma ContestTypeFromDescription(w: string, rest: string)
    requires NoChar(w, ' ') && (rest == "" || rest[0] == ' ')
    ensures ContestType(None, Some(w + rest)) == if w != "" then w else "Smart Contract"
    ensures ContestType(Some([]), None) == "Smart Contract"
  {
    SplitFirstPart(w, rest, ' ');
  }

  /** The fields of `ContestWithRelations` the transforms read. */
  datatype ApiContest = ApiContest(
    id: int,
    title: string,
    description: Option<string>,
    status: string,
    contractName: string,
    participantCount: Option<int>,
    tags: Option<seq<string>>)

  /** The `ContestCard` props (prize and dates left out). */
  datatype ContestCardView = ContestCardView(name: string, logo: string, status: ContestStatus, participants: int, contestType: string)

  /** The detail page's `Contest` (prize and dates left out). */
  datatype ContestView = ContestView(
    id: string,
    name: string,
    logo: string,
    status: ContestStatus,
    participants: int,
    contestType: string,
    description: Option<string>,
    scope: Option<seq<string>>)

  /** `participantCount || 0`. */
  function Participants(c: ApiContest): (n: int)
    ensures n == if c.participantCount.Some? then c.participantCount.value else 0
  {
    match c.participantCount
    case Some(n) => if n != 0 then n else 0
    case None => 0
  }

  /**
   * `transformContestForCard`, built on the corrected `LogoFromTitle` and `MapContestStatus`;
   * `CardOfAsWritten` is the card the source builds.
   */
  function CardOf(c: ApiContest): (r: ContestCardView)
    ensures r.name == c.title && |r.logo| <= 2
    ensures StatusMapEntry(c.status).Some? ==> r.status == StatusMapEntry(c.status).value
    ensures StatusMapEntry(c.status).None? ==> r.status == Upcoming
    ensures r.participants == if c.participantCount.Some? then c.participantCount.value else 0
    ensures c.tags.Some? && c.tags.value != [] ==> r.contestType == c.tags.value[0]
  {
    ContestCardView(c.title, LogoFromTitle(c.title), MapContestStatus(c.status), Participants(c), ContestType(c.tags, c.description))
  }

  /** `transformContestForDetail`, built on the same corrected helpers as `CardOf`. */
  function DetailOf(c: ApiContest): (r: ContestView)
    ensures r.name == c.title && |r.logo| <= 2
    ensures StatusMapEntry(c.status).None? ==> r.status == Upcoming
    ensures r.scope.Some? <==> c.contractName != ""
    ensures r.scope.Some? ==> r.scope.value == [c.contractName]
    ensures r.description.Some? <==> c.description.Some? && c.description.value != ""
    ensures r.description.Some? ==> r.description == c.description
  {
    ContestView(
      IntToString(c.id), c.title, LogoFromTitle(c.title), MapContestStatus(c.status), Participants(c),
      ContestType(c.tags, c.description),
      if c.description.Some? && c.description.value != "" then c.description else None,
      if c.contractName != "" then Some([c.contractName]) else None)
  }

  /** The card `transformContestForCard` returns as written: its status may be an inherited member. */
  datatype AsWrittenCard = AsWrittenCard(name: string, logo: string, status: Looked, participants: int, contestType: string)

  /** `transformContestForCard` as written; `None` when `getLogoFromTitle` throws. */
  function CardOfAsWritten(c: ApiContest): (r: Option<AsWrittenCard>)
    ensures r.None? <==> LogoAsWritten(c.title).TypeError?
    ensures r.Some? ==> r.value.name == c.title && r.value.status == MapContestStatusAsWritten(c.status)
  {
    match LogoAsWritten(c.title)
    case TypeError => None
    case Logo(l) => Some(AsWrittenCard(c.title, l, MapContestStatusAsWritten(c.status), Participants(c), ContestType(c.tags, c.description)))
  }

  /** The card as written is `CardOf` whenever the logo needs no empty word and the status is no inherited name. */
  lemma CardAsWrittenAgrees(c: ApiContest)
    requires LogoAsWritten(c.title) == Logo(LogoFromTitle(c.title)) && !IsInheritedName(c.status)
    ensures var card := CardOf(c);
      CardOfAsWritten(c) == Some(AsWrittenCard(card.name, card.logo, Status(card.status), card.participants, card.contestType))
  {
    InheritedStatusIsNoStatus();
  }

  /** As written, the card of a title `" "` throws; `CardOf` gives it an empty logo. */
  lemma CardOfSingleSpace(c: ApiContest)
    requires c.title == " "
    ensures CardOfAsWritten(c).None? && CardOf(c).logo == ""
  {
    LogoOfSingleSpace();
  }

  /** As written, the card of a title `"Foo "` has the logo `"FUNDEFINED"`; `CardOf` gives `"F"`. */
  lemma CardOfTrailingSpace(c: ApiContest)
    requires c.title == "Foo "
    ensures CardOfAsWritten(c).Some? && CardOfAsWritten(c).value.logo == "FUNDEFINED" && CardOf(c).logo == "F"
  {
    assert NoChar("Foo", ' ');
    LogoOfTrailingSpace("Foo");
    assert c.title == "Foo" + " " && "Foo"[0] == 'F';
    var u := ToUpper(['F'] + "undefined");
    assert |u| == 10;
    assert u[0] == 'F' && u[1] == 'U' && u[2] == 'N' && u[3] == 'D' && u[4] == 'E';
    assert u[5] == 'F' && u[6] == 'I' && u[7] == 'N' && u[8] == 'E' && u[9] == 'D';
    assert u == "FUNDEFINED";
  }

  /** As written, a status `"constructor"` puts the inherited member on the card; `CardOf` shows `UPCOMING`. */
  lemma CardOfConstructorStatus(c: ApiContest)
    requires c.status == "constructor"
    ensures CardOf(c).status == Upcoming
    ensures CardOfAsWritten(c).Some? ==> CardOfAsWritten(c).value.status == InheritedMember("constructor")
  {
    InheritedStatusIsNoStatus();
  }

  /**
   * The detail view shows what the card shows; its scope is the contract name exactly
   * when there is one, an empty description is dropped, and the id is the decimal text
   * of the numeric id.
   */
  lemma DetailExtendsCard(c: ApiContest)
    ensures var card, detail := CardOf(c), DetailOf(c);
      && detail.name == card.name && detail.logo == card.logo && detail.status == card.status
      && detail.participants == card.participants && detail.contestType == card.contestType
    ensures DetailOf(c).scope.Some? <==> c.contractName != ""
    ensures DetailOf(c).scope.Some? ==> DetailOf(c).scope.value == [c.contractName]
    ensures DetailOf(c).description.Some? <==> c.description.Some? && c.description.value != ""
    ensures c.id >= 0 ==> DecimalValue(DetailOf(c).id) == c.id
  {
    if c.id >= 0 {
      NatToStringRoundTrip(c.id);
    }
  }
}
