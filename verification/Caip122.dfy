/** The CAIP-122 message body of a sign-in: building it, and parsing it back. */
module Caip122 {
  import opened Wrappers

  /** Instants, how the builder prints them (RFC 3339, in whole seconds), and how the parser reads them; the calendar
      itself is left abstract. */
  datatype TimeFormat = TimeFormat(render: nat -> string, parse: string -> Option<nat>)

  datatype SiwnParams = SiwnParams(
    domain: string, address: string, uri: string, version: string, chainId: string, nonce: string,
    issuedAt: nat, expirationTime: nat)

  datatype Part = Domain | Address | Separator | Uri | Version | ChainId | Nonce | IssuedAt | ExpirationTime

  datatype SiwnError =
    | FieldControlChar(part: Part)
    | MissingField(part: Part)
    | CarriageReturn
    | NonEmptySeparator
    | TrailingContent
    | BadTimestamp

  const HEADER_SUFFIX: string := " wants you to sign in" + " with your Nockchain account:"

  function Label(part: Part): string {
    match part
    case Uri => "URI: "
    case Version => "Version: "
    case ChainId => "Chain ID: "
    case Nonce => "Nonce: "
    case IssuedAt => "Issued At: "
    case ExpirationTime => "Expiration Time: "
    case _ => ""
  }

  predicate IsControl(c: char) {
    c < ' ' || '\U{007F}' <= c <= '\U{009F}'
  }

  predicate NoControl(s: string) {
    forall c | c in s :: !IsControl(c)
  }

  // ----- Building

  /** The texts of a message, timestamps already printed. */
  datatype Texts = Texts(domain: string, address: string, uri: string, version: string, chainId: string, nonce: string,
                         issuedAt: string, expirationTime: string)

  function LinesFor(t: Texts): seq<string> {
    [t.domain + HEADER_SUFFIX, t.address, "",
     Label(Uri) + t.uri, Label(Version) + t.version, Label(ChainId) + t.chainId, Label(Nonce) + t.nonce,
     Label(IssuedAt) + t.issuedAt, Label(ExpirationTime) + t.expirationTime]
  }

  /** Lines put together with newlines between them. */
  function Join(lines: seq<string>): string {
    if lines == [] then "" else if |lines| == 1 then lines[0] else lines[0] + "\n" + Join(lines[1..])
  }

  function Message(t: Texts): string {
    Join(LinesFor(t))
  }

  function TextsOf(tf: TimeFormat, p: SiwnParams): Texts {
    Texts(p.domain, p.address, p.uri, p.version, p.chainId, p.nonce, tf.render(p.issuedAt), tf.render(p.expirationTime))
  }

  function ValidateField(part: Part, value: string): Result<(), SiwnError> {
    Need(NoControl(value), FieldControlChar(part))
  }

  function BuildMessage(tf: TimeFormat, p: SiwnParams): Result<string, SiwnError> {
    var _ :- ValidateField(Domain, p.domain);
    var _ :- ValidateField(Address, p.address);
    var _ :- ValidateField(Uri, p.uri);
    var _ :- ValidateField(Version, p.version);
    var _ :- ValidateField(ChainId, p.chainId);
    var _ :- ValidateField(Nonce, p.nonce);
    Success(Message(TextsOf(tf, p)))
  }

  // ----- Parsing

  function NewlineAt(s: string): (n: nat)
    ensures n <= |s| && (n < |s| ==> s[n] == '\n') && forall i | 0 <= i < n :: s[i] != '\n'
  {
    if s == "" || s[0] == '\n' then 0 else 1 + NewlineAt(s[1..])
  }

  /** `str::lines` on text without carriage returns: a final newline ends the last line and opens none. */
  function Lines(s: string): seq<string>
    decreases |s|
  {
    if s == "" then [] else
      var n := NewlineAt(s);
      if n == |s| then [s] else [s[..n]] + Lines(s[n + 1..])
  }

  function StripSuffix(s: string, suffix: string): Option<string> {
    if |s| >= |suffix| && s[|s| - |suffix|..] == suffix then Some(s[..|s| - |suffix|]) else None
  }

  function StripPrefix(s: string, prefix: string): Option<string> {
    if |s| >= |prefix| && s[..|prefix|] == prefix then Some(s[|prefix|..]) else None
  }

  function OrMissing<T>(o: Option<T>, part: Part): Result<T, SiwnError> {
    match o
    case None => Failure(MissingField(part))
    case Some(value) => Success(value)
  }

  function LineAt(lines: seq<string>, k: nat): Option<string> {
    if k < |lines| then Some(lines[k]) else None
  }

  function FieldAt(lines: seq<string>, k: nat, part: Part): Result<string, SiwnError> {
    var line :- OrMissing(LineAt(lines, k), part);
    OrMissing(StripPrefix(line, Label(part)), part)
  }

  /** The texts on the lines of a body, in the order the parser meets them. */
  function ReadTexts(lines: seq<string>): Result<Texts, SiwnError> {
    var first :- OrMissing(LineAt(lines, 0), Domain);
    var domain :- OrMissing(StripSuffix(first, HEADER_SUFFIX), Domain);
    var address :- OrMissing(LineAt(lines, 1), Address);
    var blank :- OrMissing(LineAt(lines, 2), Separator);
    var _ :- Need(blank == "", NonEmptySeparator);
    var uri :- FieldAt(lines, 3, Uri);
    var version :- FieldAt(lines, 4, Version);
    var chainId :- FieldAt(lines, 5, ChainId);
    var nonce :- FieldAt(lines, 6, Nonce);
    var issuedAt :- FieldAt(lines, 7, IssuedAt);
    var expirationTime :- FieldAt(lines, 8, ExpirationTime);
    var _ :- Need(|lines| <= 9, TrailingContent);
    Success(Texts(domain, address, uri, version, chainId, nonce, issuedAt, expirationTime))
  }

  function ParamsOf(tf: TimeFormat, t: Texts): Result<SiwnParams, SiwnError> {
    var issuedAt := tf.parse(t.issuedAt);
    var _ :- Need(issuedAt.Some?, BadTimestamp);
    var expirationTime := tf.parse(t.expirationTime);
    var _ :- Need(expirationTime.Some?, BadTimestamp);
    Success(SiwnParams(t.domain, t.address, t.uri, t.version, t.chainId, t.nonce, issuedAt.value, expirationTime.value))
  }

  function Parsed(tf: TimeFormat, body: string): Result<SiwnParams, SiwnError> {
    var _ :- Need('\r' !in body, CarriageReturn);
    var texts :- ReadTexts(Lines(body));
    ParamsOf(tf, texts)
  }

  /** The iterator that the parser consumes. */
  class LineIterator {
    var rest: seq<string>

    constructor (lines: seq<string>)
      ensures rest == lines
    {
      rest := lines;
    }

    method Next() returns (line: Option<string>)
      modifies this
      ensures line == LineAt(old(rest), 0)
      ensures rest == if old(rest) == [] then [] else old(rest)[1..]
    {
      if rest == [] {
        return None;
      }
      line := Some(rest[0]);
      rest := rest[1..];
    }
  }

  method PopField(it: LineIterator, part: Part) returns (r: Result<string, SiwnError>)
    modifies it
    ensures r == FieldAt(old(it.rest), 0, part)
    ensures r.Success? ==> old(it.rest) != [] && it.rest == old(it.rest)[1..]
  {
    var line := it.Next();
    if line.None? {
      return Failure(MissingField(part));
    }
    return OrMissing(StripPrefix(line.value, Label(part)), part);
  }

  lemma Onward(lines: seq<string>, k: nat, part: Part)
    requires k <= |lines|
    ensures FieldAt(lines[k..], 0, part) == FieldAt(lines, k, part)
    ensures k < |lines| ==> lines[k..][1..] == lines[k + 1..]
  {
  }

  /** The six labelled fields and the end of the body. */
  method PopFields(it: LineIterator, domain: string, address: string, ghost lines: seq<string>)
    returns (r: Result<Texts, SiwnError>)
    requires |lines| >= 3 && it.rest == lines[3..]
    requires StripSuffix(lines[0], HEADER_SUFFIX) == Some(domain) && lines[1] == address && lines[2] == ""
    modifies it
    ensures r == ReadTexts(lines)
  {
    Onward(lines, 3, Uri);
    var uri :- PopField(it, Uri);
    Onward(lines, 4, Version);
    var version :- PopField(it, Version);
    Onward(lines, 5, ChainId);
    var chainId :- PopField(it, ChainId);
    Onward(lines, 6, Nonce);
    var nonce :- PopField(it, Nonce);
    Onward(lines, 7, IssuedAt);
    var issuedAt :- PopField(it, IssuedAt);
    Onward(lines, 8, ExpirationTime);
    var expirationTime :- PopField(it, ExpirationTime);
    var extra := it.Next();
    if extra.Some? {
      return Failure(TrailingContent);
    }
    return Success(Texts(domain, address, uri, version, chainId, nonce, issuedAt, expirationTime));
  }

  /** `parse_caip122_message`. */
  method ParseMessage(tf: TimeFormat, body: string) returns (r: Result<SiwnParams, SiwnError>)
    ensures r == Parsed(tf, body)
  {
    if '\r' in body {
      return Failure(CarriageReturn);
    }
    ghost var lines := Lines(body);
    var it := new LineIterator(Lines(body));
    var first := it.Next();
    if first.None? {
      return Failure(MissingField(Domain));
    }
    var domain := StripSuffix(first.value, HEADER_SUFFIX);
    if domain.None? {
      return Failure(MissingField(Domain));
    }
    var address := it.Next();
    if address.None? {
      return Failure(MissingField(Address));
    }
    var blank := it.Next();
    if blank.None? {
      return Failure(MissingField(Separator));
    }
    if blank.value != "" {
      return Failure(NonEmptySeparator);
    }
    assert it.rest == lines[3..];
    var texts := PopFields(it, domain.value, address.value, lines);
    if texts.Failure? {
      return Failure(texts.error);
    }
    return ParamsOf(tf, texts.value);
  }

  // ----- Lines and Join

  predicate OneLine(s: string) {
    '\n' !in s && '\r' !in s
  }

  lemma FirstLine(line: string, rest: string)
    requires '\n' !in line
    ensures Lines(line + "\n" + rest) == [line] + Lines(rest)
  {
    var s := line + "\n" + rest;
    assert s[|line|] == '\n' && forall i | 0 <= i < |line| :: s[i] == line[i] && line[i] in line;
    assert NewlineAt(s) == |line|;
    assert s[..|line|] == line && s[|line| + 1..] == rest;
  }

  lemma LastLine(line: string)
    requires '\n' !in line
    ensures line != "" ==> Lines(line) == [line]
    ensures Lines(line + "\n") == [line]
  {
    assert forall i | 0 <= i < |line| :: line[i] in line;
    FirstLine(line, "");
    assert line + "\n" + "" == line + "\n";
  }

  lemma JoinStep(line: string, rest: seq<string>)
    requires '\n' !in line && rest != []
    ensures Lines(Join([line] + rest)) == [line] + Lines(Join(rest))
    ensures Lines(Join([line] + rest) + "\n") == [line] + Lines(Join(rest) + "\n")
  {
    var text := Join(rest);
    assert ([line] + rest)[1..] == rest;
    assert Join([line] + rest) == line + "\n" + text;
    assert line + "\n" + text + "\n" == line + "\n" + (text + "\n");
    FirstLine(line, text);
    FirstLine(line, text + "\n");
  }

  /** Reading back joined lines, with or without a final newline. */
  lemma {:induction false} LinesOfJoin(lines: seq<string>)
    requires lines != [] && forall i | 0 <= i < |lines| :: '\n' !in lines[i]
    ensures |lines[|lines| - 1]| > 0 ==> Lines(Join(lines)) == lines
    ensures Lines(Join(lines) + "\n") == lines
  {
    if |lines| == 1 {
      LastLine(lines[0]);
    } else {
      var rest := lines[1..];
      assert rest[|rest| - 1] == lines[|lines| - 1];
      LinesOfJoin(rest);
      JoinStep(lines[0], rest);
      assert lines == [lines[0]] + rest;
    }
  }

  lemma JoinOnto(line: string, lines: seq<string>, rest: string)
    requires lines != [] && (rest == Join(lines) || rest == Join(lines) + "\n")
    ensures line + "\n" + rest == Join([line] + lines) || line + "\n" + rest == Join([line] + lines) + "\n"
  {
    assert ([line] + lines)[1..] == lines;
    var joined := Join(lines);
    assert Join([line] + lines) == line + "\n" + joined;
    assert line + "\n" + (joined + "\n") == line + "\n" + joined + "\n";
  }

  /** Conversely, a text is its lines joined, up to one final newline. */
  lemma {:induction false} JoinOfLines(s: string)
    requires s != ""
    ensures Lines(s) != [] && (s == Join(Lines(s)) || s == Join(Lines(s)) + "\n")
    decreases |s|
  {
    var n := NewlineAt(s);
    if n < |s| {
      var line, rest := s[..n], s[n + 1..];
      LinesUnfold(s, line, rest);
      if rest == "" {
        OneLineOnly(line);
      } else {
        JoinOfLines(rest);
        JoinOnto(line, Lines(rest), rest);
      }
    }
  }

  lemma LinesUnfold(s: string, line: string, rest: string)
    requires NewlineAt(s) < |s| && line == s[..NewlineAt(s)] && rest == s[NewlineAt(s) + 1..]
    ensures s == line + "\n" + rest && Lines(s) == [line] + Lines(rest)
  {
  }

  lemma OneLineOnly(line: string)
    ensures Join([line] + Lines("")) + "\n" == line + "\n" + ""
  {
    assert Lines("") == [];
    assert [line] + [] == [line];
  }

  /** No line of a text without carriage returns holds a line break. */
  lemma {:induction false} LinesAreOneLine(s: string)
    requires '\r' !in s
    ensures forall line | line in Lines(s) :: OneLine(line)
    decreases |s|
  {
    if s != "" {
      var n := NewlineAt(s);
      if n < |s| {
        LinesAreOneLine(s[n + 1..]);
      }
    }
  }

  // ----- The theorems

  predicate AllOneLine(t: Texts) {
    && OneLine(t.domain) && OneLine(t.address) && OneLine(t.uri) && OneLine(t.version)
    && OneLine(t.chainId) && OneLine(t.nonce) && OneLine(t.issuedAt) && OneLine(t.expirationTime)
  }

  lemma LinesForOneLine(t: Texts)
    requires AllOneLine(t)
    ensures forall i | 0 <= i < |LinesFor(t)| :: OneLine(LinesFor(t)[i])
    ensures LinesFor(t)[8] != ""
  {
    var l := LinesFor(t);
    OneLineHeader();
    forall part: Part ensures OneLine(Label(part)) {
      OneLineLabel(part);
    }
    assert OneLine(l[0]) && OneLine(l[1]) && OneLine(l[2]);
    assert OneLine(l[3]) && OneLine(l[4]) && OneLine(l[5]);
    assert OneLine(l[6]) && OneLine(l[7]) && OneLine(l[8]);
  }

  lemma OneLineHeader()
    ensures OneLine(HEADER_SUFFIX)
  {
    assert OneLine(" wants you to sign in") && OneLine(" with your Nockchain account:");
  }

  lemma OneLineLabel(part: Part)
    ensures OneLine(Label(part))
  {
  }

  lemma {:induction false} JoinOneLine(lines: seq<string>)
    requires forall i | 0 <= i < |lines| :: '\r' !in lines[i]
    ensures '\r' !in Join(lines)
  {
    if |lines| > 1 {
      JoinOneLine(lines[1..]);
    }
  }

  lemma ReadBack(t: Texts)
    ensures ReadTexts(LinesFor(t)) == Success(t)
  {
  }

  /** Every message of one-line texts parses to those texts, with or without a final newline; empty fields
      and fields that contain a label or the header suffix included. */
  lemma MessagesParse(tf: TimeFormat, t: Texts)
    requires AllOneLine(t)
    ensures Parsed(tf, Message(t)) == ParamsOf(tf, t)
    ensures Parsed(tf, Message(t) + "\n") == ParamsOf(tf, t)
  {
    LinesForOneLine(t);
    LinesOfJoin(LinesFor(t));
    JoinOneLine(LinesFor(t));
    ReadBack(t);
  }

  lemma ControlFreeIsOneLine(s: string)
    requires NoControl(s)
    ensures OneLine(s)
  {
    assert IsControl('\n') && IsControl('\r');
  }

  /** `parse(build(p))` is `p`, for every field assignment that builds and timestamps that print one way. */
  lemma RoundTrip(tf: TimeFormat, p: SiwnParams)
    requires BuildMessage(tf, p).Success? && Prints(tf, p)
    ensures Parsed(tf, BuildMessage(tf, p).value) == Success(p)
  {
    BuildsExactly(tf, p);
    FieldsAreOneLine(tf, p);
    MessagesParse(tf, TextsOf(tf, p));
  }

  /** A body builds exactly when no field carries a control character; so no field can add a line. */
  lemma BuildsExactly(tf: TimeFormat, p: SiwnParams)
    ensures BuildMessage(tf, p).Success? <==> FieldsClean(p)
    ensures FieldsClean(p) ==> BuildMessage(tf, p) == Success(Message(TextsOf(tf, p)))
    ensures FieldsClean(p) <==> forall s | s in [p.domain, p.address, p.uri, p.version, p.chainId, p.nonce] ::
              forall c | c in s :: c as int >= 0x20 && !(0x7F <= c as int <= 0x9F)
  {
  }

  /** The text of a message, written out: nine lines, a newline between each two. */
  lemma MessageText(t: Texts)
    ensures Message(t) == Join([t.domain + " wants you to sign in" + " with your Nockchain account:", t.address, "",
                                "URI: " + t.uri, "Version: " + t.version, "Chain ID: " + t.chainId,
                                "Nonce: " + t.nonce, "Issued At: " + t.issuedAt,
                                "Expiration Time: " + t.expirationTime])
  {
    assert t.domain + " wants you to sign in" + " with your Nockchain account:" == t.domain + HEADER_SUFFIX;
  }

  lemma NewlinesBetween(line: string, rest: seq<string>)
    ensures Join([line]) == line
    ensures rest != [] ==> Join([line] + rest) == line + "\n" + Join(rest)
  {
    assert ([line] + rest)[1..] == rest;
  }

  /** Two parameter sets that build the same body are the same. */
  lemma BuildInjective(tf: TimeFormat, p: SiwnParams, q: SiwnParams)
    requires BuildMessage(tf, p).Success? && BuildMessage(tf, p) == BuildMessage(tf, q)
    requires Prints(tf, p) && Prints(tf, q)
    ensures p == q
  {
    RoundTrip(tf, p);
    RoundTrip(tf, q);
  }

  lemma StripMeans(s: string, mark: string)
    ensures StripSuffix(s, mark).Some? ==> s == StripSuffix(s, mark).value + mark
    ensures StripPrefix(s, mark).Some? ==> s == mark + StripPrefix(s, mark).value
  {
  }

  lemma FieldMeans(lines: seq<string>, k: nat, part: Part)
    requires FieldAt(lines, k, part).Success?
    ensures k < |lines| && lines[k] == Label(part) + FieldAt(lines, k, part).value
  {
    StripMeans(lines[k], Label(part));
  }

  lemma HeaderMeans(lines: seq<string>)
    requires lines != [] && StripSuffix(lines[0], HEADER_SUFFIX).Some?
    ensures lines[0] == StripSuffix(lines[0], HEADER_SUFFIX).value + HEADER_SUFFIX
  {
    StripMeans(lines[0], HEADER_SUFFIX);
  }

  /** The nine lines of a body that is read. */
  lemma NineLines(lines: seq<string>)
    requires ReadTexts(lines).Success?
    ensures |lines| == 9 && StripSuffix(lines[0], HEADER_SUFFIX) == Some(ReadTexts(lines).value.domain)
    ensures lines[1] == ReadTexts(lines).value.address && lines[2] == ""
    ensures FieldAt(lines, 3, Uri) == Success(ReadTexts(lines).value.uri)
    ensures FieldAt(lines, 4, Version) == Success(ReadTexts(lines).value.version)
    ensures FieldAt(lines, 5, ChainId) == Success(ReadTexts(lines).value.chainId)
    ensures FieldAt(lines, 6, Nonce) == Success(ReadTexts(lines).value.nonce)
    ensures FieldAt(lines, 7, IssuedAt) == Success(ReadTexts(lines).value.issuedAt)
    ensures FieldAt(lines, 8, ExpirationTime) == Success(ReadTexts(lines).value.expirationTime)
  {
  }

  lemma ReadTextsMeans(lines: seq<string>)
    requires ReadTexts(lines).Success?
    ensures lines == LinesFor(ReadTexts(lines).value)
  {
    NineLines(lines);
    HeaderMeans(lines);
    FieldMeans(lines, 3, Uri);
    FieldMeans(lines, 4, Version);
    FieldMeans(lines, 5, ChainId);
    FieldMeans(lines, 6, Nonce);
    FieldMeans(lines, 7, IssuedAt);
    FieldMeans(lines, 8, ExpirationTime);
    NineOf(lines);
  }

  lemma NineOf(lines: seq<string>)
    requires |lines| == 9
    ensures lines == [lines[0], lines[1], lines[2], lines[3], lines[4], lines[5], lines[6], lines[7], lines[8]]
  {
  }

  /** A body is the message of these texts, perhaps with one more newline at its end. */
  predicate IsMessageOf(body: string, t: Texts) {
    AllOneLine(t) && (body == Message(t) || body == Message(t) + "\n")
  }

  /** A body that is read is the message of the texts read. */
  lemma ReadBodiesAreMessages(body: string)
    requires '\r' !in body && ReadTexts(Lines(body)).Success?
    ensures IsMessageOf(body, ReadTexts(Lines(body)).value)
  {
    ReadTextsMeans(Lines(body));
    FromLines(body, ReadTexts(Lines(body)).value);
  }

  lemma FromLines(body: string, t: Texts)
    requires '\r' !in body && Lines(body) == LinesFor(t)
    ensures IsMessageOf(body, t)
  {
    LinesAreOneLine(body);
    PartsOneLine(Lines(body), t);
    JoinOfLines(body);
  }

  /** The parser accepts exactly the messages of one-line texts whose timestamps parse, and each with one final newline
      too: control characters other than line breaks and other spellings of a timestamp included. */
  lemma ParsesExactly(tf: TimeFormat, body: string, p: SiwnParams)
    ensures Parsed(tf, body) == Success(p) <==> exists t :: IsMessageOf(body, t) && ParamsOf(tf, t) == Success(p)
  {
    if Parsed(tf, body) == Success(p) {
      ReadBodiesAreMessages(body);
      assert ParamsOf(tf, ReadTexts(Lines(body)).value) == Success(p);
    }
    if t :| IsMessageOf(body, t) && ParamsOf(tf, t) == Success(p) {
      MessagesParse(tf, t);
    }
  }

  /** Printed timestamps hold no control character. */
  predicate PrintsClean(tf: TimeFormat, p: SiwnParams) {
    NoControl(tf.render(p.issuedAt)) && NoControl(tf.render(p.expirationTime))
  }

  /** The timestamps of `p` are whole seconds: what is printed parses back. */
  predicate Prints(tf: TimeFormat, p: SiwnParams) {
    && PrintsClean(tf, p)
    && tf.parse(tf.render(p.issuedAt)) == Some(p.issuedAt)
    && tf.parse(tf.render(p.expirationTime)) == Some(p.expirationTime)
  }

  predicate FieldsClean(p: SiwnParams) {
    forall s | s in [p.domain, p.address, p.uri, p.version, p.chainId, p.nonce] :: NoControl(s)
  }

  lemma CleanTexts(tf: TimeFormat, p: SiwnParams)
    requires PrintsClean(tf, p) && FieldsClean(p)
    ensures AllOneLine(TextsOf(tf, p)) && ReadTexts(Lines(Message(TextsOf(tf, p)))) == Success(TextsOf(tf, p))
  {
    var t := TextsOf(tf, p);
    FieldsAreOneLine(tf, p);
    LinesForOneLine(t);
    LinesOfJoin(LinesFor(t));
    ReadBack(t);
  }

  lemma FieldsAreOneLine(tf: TimeFormat, p: SiwnParams)
    requires PrintsClean(tf, p) && FieldsClean(p)
    ensures AllOneLine(TextsOf(tf, p))
  {
    var t := TextsOf(tf, p);
    forall s | s in [t.domain, t.address, t.uri, t.version, t.chainId, t.nonce] ensures OneLine(s) {
      ControlFreeIsOneLine(s);
    }
    ControlFreeIsOneLine(t.issuedAt);
    ControlFreeIsOneLine(t.expirationTime);
  }

  /** When an accepted body is the one the builder makes: it has no final newline, no control character in its six
      fields, and its timestamps are spelled as the builder spells them; whether these are whole seconds or not. */
  lemma AcceptedIsBuilt(tf: TimeFormat, body: string, p: SiwnParams)
    requires Parsed(tf, body) == Success(p) && PrintsClean(tf, p)
    ensures ReadTexts(Lines(body)).Success?
    ensures BuildMessage(tf, p) == Success(body) <==> BuiltFrom(tf, body, ReadTexts(Lines(body)).value, p)
  {
    var t := ReadTexts(Lines(body)).value;
    BuildsExactly(tf, p);
    BuiltTexts(tf, body, t, p);
  }

  lemma BuiltTexts(tf: TimeFormat, body: string, t: Texts, p: SiwnParams)
    requires ReadTexts(Lines(body)) == Success(t) && ParamsOf(tf, t) == Success(p) && PrintsClean(tf, p)
    ensures FieldsClean(p) && body == Message(TextsOf(tf, p)) <==> BuiltFrom(tf, body, t, p)
  {
    TextsAgree(tf, t, p);
    if FieldsClean(p) && body == Message(TextsOf(tf, p)) {
      CleanTexts(tf, p);
    }
  }

  predicate BuiltFrom(tf: TimeFormat, body: string, t: Texts, p: SiwnParams) {
    body == Message(t) && FieldsClean(p) && tf.render(p.issuedAt) == t.issuedAt
        && tf.render(p.expirationTime) == t.expirationTime
  }

  lemma TextsAgree(tf: TimeFormat, t: Texts, p: SiwnParams)
    requires ParamsOf(tf, t) == Success(p)
    ensures TextsOf(tf, p) == t.(issuedAt := tf.render(p.issuedAt), expirationTime := tf.render(p.expirationTime))
  {
  }

  /** So another spelling of a timestamp is accepted in a body that the builder does not make. */
  lemma OtherSpellingIsAccepted(tf: TimeFormat, p: SiwnParams, alt: string)
    requires FieldsClean(p) && PrintsClean(tf, p) && OneLine(alt)
    requires tf.parse(tf.render(p.expirationTime)) == Some(p.expirationTime)
    requires alt != tf.render(p.issuedAt) && tf.parse(alt) == Some(p.issuedAt)
    ensures var body := Message(TextsOf(tf, p).(issuedAt := alt));
            Parsed(tf, body) == Success(p) && BuildMessage(tf, p) != Success(body)
  {
    var t := TextsOf(tf, p).(issuedAt := alt);
    FieldsAreOneLine(tf, p);
    MessagesParse(tf, t);
    LinesForOneLine(t);
    LinesOfJoin(LinesFor(t));
    ReadBack(t);
    AcceptedIsBuilt(tf, Message(t), p);
  }

  /** And a tab in a field: the builder refuses it, the parser reads it. */
  lemma ControlCharactersAreAccepted(tf: TimeFormat, p: SiwnParams)
    requires FieldsClean(p) && Prints(tf, p)
    ensures var tabbed := p.(domain := "\t" + p.domain);
            BuildMessage(tf, tabbed).Failure? && Parsed(tf, Message(TextsOf(tf, tabbed))) == Success(tabbed)
  {
    var tabbed := p.(domain := "\t" + p.domain);
    assert tabbed.domain[0] == '\t' && IsControl('\t');
    FieldsAreOneLine(tf, p);
    assert OneLine("\t");
    PartOneLine("\t", p.domain);
    MessagesParse(tf, TextsOf(tf, tabbed));
  }

  lemma PartsOneLine(l: seq<string>, t: Texts)
    requires l == LinesFor(t) && forall line | line in l :: OneLine(line)
    ensures AllOneLine(t)
  {
    assert OneLine(l[0]) && OneLine(l[1]) && OneLine(l[3]) && OneLine(l[4]);
    assert OneLine(l[5]) && OneLine(l[6]) && OneLine(l[7]) && OneLine(l[8]);
    PartOneLine(t.domain, HEADER_SUFFIX);
    PartOneLine(Label(Uri), t.uri);
    PartOneLine(Label(Version), t.version);
    PartOneLine(Label(ChainId), t.chainId);
    PartOneLine(Label(Nonce), t.nonce);
    PartOneLine(Label(IssuedAt), t.issuedAt);
    PartOneLine(Label(ExpirationTime), t.expirationTime);
  }

  lemma PartOneLine(a: string, b: string)
    ensures OneLine(a + b) <==> OneLine(a) && OneLine(b)
  {
  }
}
