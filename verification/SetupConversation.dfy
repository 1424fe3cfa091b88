/** The Telegram-independent BotFather conversation (src/setup.rs): usernames,
    confirmations and the state machine over every event sequence. */
module SetupConversation {
  import opened Basics
  import opened Utf

  // ------------------------------------------------------------- characters

  function LowerChar(c: char): char {
    if 'A' <= c <= 'Z' then (c as int + 32) as char else c
  }

  function ToAsciiLower(s: string): (r: string)
    ensures |r| == |s|
    ensures forall i :: 0 <= i < |s| ==> r[i] == LowerChar(s[i])
  {
    seq(|s|, i requires 0 <= i < |s| => LowerChar(s[i]))
  }

  const UPPER := "ABCDEFGHIJKLMNOPQRSTUVWXYZ"
  const LOWER := "abcdefghijklmnopqrstuvwxyz"

  /** Each capital becomes the small letter at its place in the alphabet; any
      other character stays. */
  lemma LowerCharMeans(c: char)
    ensures forall i :: 0 <= i < 26 ==> LowerChar(UPPER[i]) == LOWER[i]
    ensures c !in UPPER ==> LowerChar(c) == c
  {
    forall i | 0 <= i < 26 ensures LowerChar(UPPER[i]) == LOWER[i] {
      assert UPPER[i] as int == 65 + i && LOWER[i] as int == 97 + i;
    }
    if 'A' <= c <= 'Z' {
      assert UPPER[c as int - 65] == c;
    }
  }

  predicate IsNameChar(c: char) {
    'a' <= c <= 'z' || 'A' <= c <= 'Z' || '0' <= c <= '9' || c == '_'
  }

  /** Unicode white space, as `trim` removes it. */
  predicate IsWhitespace(c: char) {
    var n := c as int;
    || 0x09 <= n <= 0x0D || n == 0x20 || n == 0x85 || n == 0xA0 || n == 0x1680
    || 0x2000 <= n <= 0x200A || n == 0x2028 || n == 0x2029 || n == 0x202F || n == 0x205F || n == 0x3000
  }

  lemma CapitalIff(c: char)
    ensures c in UPPER <==> 65 <= c as int <= 90
  {
    if 'A' <= c <= 'Z' {
      assert UPPER[c as int - 65] == c;
    }
  }

  lemma SmallIff(c: char)
    ensures c in LOWER <==> 97 <= c as int <= 122
  {
    if 'a' <= c <= 'z' {
      assert LOWER[c as int - 97] == c;
    }
  }

  /** Letters and digits of ASCII, and the underscore. */
  lemma IsNameCharMeans(c: char)
    ensures IsNameChar(c) <==> c in UPPER || c in LOWER || c in "0123456789" || c == '_'
  {
    CapitalIff(c);
    SmallIff(c);
    if '0' <= c <= '9' {
      assert "0123456789"[c as int - 48] == c;
    }
  }

  /** The 25 characters with the Unicode property White_Space. */
  lemma IsWhitespaceMeans(c: char)
    ensures IsWhitespace(c) <==> c as int in {
      9, 10, 11, 12, 13, 32, 133, 160, 5760, 8192, 8193, 8194, 8195, 8196, 8197, 8198, 8199, 8200, 8201, 8202,
      8232, 8233, 8239, 8287, 12288}
  {
  }

  predicate IsControl(c: char) {
    c as int < 0x20 || 0x7F <= c as int < 0xA0
  }

  /** The Unicode category Cc: both blocks of control characters, and delete. */
  lemma IsControlMeans(c: char)
    ensures IsControl(c) <==> c as int <= 31 || c as int == 127 || 128 <= c as int <= 159
  {
  }

  function TrimStart(s: string): string {
    if s != "" && IsWhitespace(s[0]) then TrimStart(s[1..]) else s
  }

  function TrimEnd(s: string): string {
    if s != "" && IsWhitespace(s[|s| - 1]) then TrimEnd(s[..|s| - 1]) else s
  }

  function Trim(s: string): string {
    TrimEnd(TrimStart(s))
  }

  predicate Blank(s: string) {
    forall c <- s :: IsWhitespace(c)
  }

  /** Trimming takes off all white space around a text and nothing else. */
  lemma TrimMeans(s: string)
    ensures exists before, after :: Blank(before) && Blank(after) && s == before + Trim(s) + after
    ensures var r := Trim(s); r != "" ==> !IsWhitespace(r[0]) && !IsWhitespace(r[|r| - 1])
  {
    hide TrimStart, TrimEnd, Blank, IsWhitespace;
    TrimStartMeans(s);
    TrimEndMeans(TrimStart(s));
    var middle, r := TrimStart(s), Trim(s);
    var before, after := s[..|s| - |middle|], middle[|r|..];
    assert r + after == middle;
    assert s == before + (r + after) == before + r + after;
    if r != "" {
      assert middle[0] == r[0];
    }
  }

  lemma {:induction false} TrimStartMeans(s: string)
    ensures |TrimStart(s)| <= |s| && s == s[..|s| - |TrimStart(s)|] + TrimStart(s)
    ensures Blank(s[..|s| - |TrimStart(s)|])
    ensures TrimStart(s) != "" ==> !IsWhitespace(TrimStart(s)[0])
    decreases |s|
  {
    if s != "" && IsWhitespace(s[0]) {
      TrimStartMeans(s[1..]);
      assert s == [s[0]] + s[1..];
      assert s[..|s| - |TrimStart(s)|] == [s[0]] + s[1..][..|s| - 1 - |TrimStart(s)|];
    }
  }

  lemma {:induction false} TrimEndMeans(s: string)
    ensures TrimEnd(s) <= s && Blank(s[|TrimEnd(s)|..])
    ensures TrimEnd(s) != "" ==> !IsWhitespace(TrimEnd(s)[|TrimEnd(s)| - 1])
    decreases |s|
  {
    if s != "" && IsWhitespace(s[|s| - 1]) {
      var n := |s| - 1;
      TrimEndMeans(s[..n]);
      assert s[|TrimEnd(s)|..] == s[..n][|TrimEnd(s)|..] + [s[n]];
    }
  }

  /** A text is `word`, a word without white space, once trimmed, exactly when it
      is `word` with white space around it. */
  lemma TrimsTo(s: string, word: string)
    requires word != "" && forall c <- word :: !IsWhitespace(c)
    ensures Trim(s) == word <==> exists before, after :: Blank(before) && Blank(after) && s == before + word + after
  {
    TrimMeans(s);
    if before, after :| Blank(before) && Blank(after) && s == before + word + after {
      TrimPadded(before, word, after);
    }
  }

  lemma TrimPadded(before: string, word: string, after: string)
    requires Blank(before) && Blank(after) && word != "" && !IsWhitespace(word[0]) && !IsWhitespace(word[|word| - 1])
    ensures Trim(before + word + after) == word
  {
    TrimStartPadded(before, word + after);
    assert before + word + after == before + (word + after);
    TrimEndPadded(word, after);
  }

  lemma {:induction false} TrimStartPadded(before: string, rest: string)
    requires Blank(before) && rest != "" && !IsWhitespace(rest[0])
    ensures TrimStart(before + rest) == rest
    decreases |before|
  {
    if before == "" {
      assert before + rest == rest;
    } else {
      assert (before + rest)[1..] == before[1..] + rest;
      TrimStartPadded(before[1..], rest);
    }
  }

  lemma {:induction false} TrimEndPadded(rest: string, after: string)
    requires Blank(after) && rest != "" && !IsWhitespace(rest[|rest| - 1])
    ensures TrimEnd(rest + after) == rest
    decreases |after|
  {
    if after == "" {
      assert rest + after == rest;
    } else {
      var n := |after| - 1;
      assert (rest + after)[..|rest| + n] == rest + after[..n];
      TrimEndPadded(rest, after[..n]);
    }
  }

  // -------------------------------------------------------------- usernames

  datatype UsernameError = MissingBotSuffix | InvalidCharactersOrLength

  datatype Username = Username(normalized: string, display: string)

  /** What BotFather accepts as a bot's name, in both spellings. */
  predicate ValidUsername(u: Username) {
    && u.normalized == ToAsciiLower(u.display)
    && 5 <= |u.display| <= 32
    && (forall c <- u.display :: IsNameChar(c))
    && EndsWith(u.normalized, "bot")
  }

  function ValidateUsername(input: string): Result<Username, UsernameError> {
    if !EndsWith(ToAsciiLower(input), "bot") then Err(MissingBotSuffix)
    else if !(5 <= ByteLength(input) <= 32) || exists c <- input :: !IsNameChar(c) then Err(InvalidCharactersOrLength)
    else Ok(Username(ToAsciiLower(input), input))
  }

  lemma {:induction false} NameCharsAreBytes(s: string)
    requires forall c <- s :: IsNameChar(c)
    ensures ByteLength(s) == |s|
    decreases |s|
  {
    if s != "" {
      assert s[|s| - 1] in s;
      assert forall c <- s[..|s| - 1] :: c in s;
      NameCharsAreBytes(s[..|s| - 1]);
    }
  }

  /** Exactly the valid usernames are accepted, in the spelling given, and the
      two errors tell the suffix from everything else. */
  lemma ValidateUsernameIff(input: string)
    ensures ValidateUsername(input).Ok? <==> ValidUsername(Username(ToAsciiLower(input), input))
    ensures ValidateUsername(input).Ok? ==>
      ValidateUsername(input).value == Username(ToAsciiLower(input), input)
    ensures ValidateUsername(input) == Err(MissingBotSuffix) <==> !EndsWith(ToAsciiLower(input), "bot")
  {
    if forall c <- input :: IsNameChar(c) {
      NameCharsAreBytes(input);
    }
  }

  type Entropy = s: seq<byte> | |s| == 8 witness [0, 0, 0, 0, 0, 0, 0, 0]

  const HEX := "0123456789abcdef"

  function HexBytes(bytes: seq<byte>): (r: string)
    ensures |r| == 2 * |bytes|
    ensures forall c <- r :: c in HEX
  {
    if bytes == [] then ""
    else [HEX[bytes[0] as int / 16], HEX[bytes[0] as int % 16]] + HexBytes(bytes[1..])
  }

  function GeneratedName(random: Entropy): string {
    "lavis_" + HexBytes(random) + "_bot"
  }

  /** A generated name is always valid: generation fails only without entropy. */
  lemma GeneratedIsValid(random: Entropy)
    ensures ValidateUsername(GeneratedName(random)).Ok?
  {
    var name := GeneratedName(random);
    ValidateUsernameIff(name);
    GeneratedCharacters(random);
    hide HexBytes;
    assert ToAsciiLower(name)[|name| - 3..] == "bot";
  }

  lemma GeneratedCharacters(random: Entropy)
    ensures forall c <- GeneratedName(random) :: IsNameChar(c)
  {
    hide HexBytes;
    assert forall c <- HEX :: IsNameChar(c);
    assert forall c <- GeneratedName(random) :: c in "lavis_" || c in HexBytes(random) || c in "_bot";
  }

  /** The generated name spells out its entropy: eight bytes as two lower-case
      hexadecimal digits each, so different entropy gives different names. */
  lemma GeneratedSpells(random: Entropy, i: nat)
    requires i < 8
    ensures |GeneratedName(random)| == 26
    ensures GeneratedName(random)[..6] == "lavis_" && GeneratedName(random)[22..] == "_bot"
    ensures var high, low := GeneratedName(random)[6 + 2 * i], GeneratedName(random)[7 + 2 * i];
      exists h, l :: 0 <= h < 16 && 0 <= l < 16 && random[i] as int == 16 * h + l
        && high == "0123456789abcdef"[h] && low == "0123456789abcdef"[l]
  {
    HexBytesAt(random, i);
    var h, l := random[i] as int / 16, random[i] as int % 16;
    assert GeneratedName(random)[6 + 2 * i] == HexBytes(random)[2 * i] == "0123456789abcdef"[h];
    assert GeneratedName(random)[7 + 2 * i] == HexBytes(random)[2 * i + 1] == "0123456789abcdef"[l];
  }

  lemma {:induction false} HexBytesAt(bytes: seq<byte>, i: nat)
    requires i < |bytes|
    ensures HexBytes(bytes)[2 * i] == HEX[bytes[i] as int / 16] && HexBytes(bytes)[2 * i + 1] == HEX[bytes[i] as int % 16]
    decreases i
  {
    if i > 0 {
      HexBytesAt(bytes[1..], i - 1);
    }
  }

  datatype Confirmation = Confirmed | Declined

  function ParseConfirmation(input: string): Option<Confirmation> {
    var text := ToAsciiLower(Trim(input));
    if text == "confirm" then Some(Confirmed) else if text == "cancel" then Some(Declined) else None
  }

  // ---------------------------------------------------------- state machine

  datatype BotFatherResponse =
    | Success(token: string)
    | UsernameOccupied
    | UsernameInvalid
    | LimitReached
    | FloodWait
    | Unexpected

  datatype SetupState =
    | Idle
    | AwaitingDisplayName
    | AwaitingUsername(displayName: string)
    | AwaitingConfirmation(displayName: string, username: Username)
    | AwaitingBotFather(displayName: string, username: Username)
    | Completed(username: Username, token: string)
    | Cancelled
    | Failed
    | TimedOut

  /** `random` is what the system's entropy would give to a generated name. */
  datatype SetupEvent =
    | CommandNewBot
    | CommandCancel
    | DisplayNameGiven(name: string)
    | UsernameGiven(input: string, random: Option<Entropy>)
    | ConfirmationGiven(input: string)
    | BotFather(response: BotFatherResponse)
    | Timeout

  datatype SetupEffect =
    | SendBotFather(text: string)
    | PromptDisplayName
    | PromptUsername
    | PromptConfirmation(username: Username)
    | Notify(message: string)
    | Complete(username: Username, token: string)

  datatype Transition = Transition(state: SetupState, effects: seq<SetupEffect>)

  predicate AcceptableDisplayName(name: string) {
    name != "" && ByteLength(name) <= 64 && forall c <- name :: !IsControl(c)
  }

  function ChooseUsername(input: string, random: Option<Entropy>): Result<Username, UsernameError> {
    var text := ToAsciiLower(Trim(input));
    if text == "-" || text == "auto" then
      if random.None? then Err(InvalidCharactersOrLength) else ValidateUsername(GeneratedName(random.value))
    else ValidateUsername(input)
  }

  function Next(state: SetupState, event: SetupEvent): Transition {
    match event
    case CommandCancel => Transition(Cancelled, [Notify("Setup cancelled.")])
    case CommandNewBot => Transition(AwaitingDisplayName, [SendBotFather("/newbot"), PromptDisplayName])
    case Timeout =>
      if state.Idle? || state.Completed? || state.Cancelled? || state.Failed? || state.TimedOut? then Transition(state, [])
      else Transition(TimedOut, [Notify("Setup timed out.")])
    case DisplayNameGiven(given) =>
      if !state.AwaitingDisplayName? then Transition(state, [])
      else
        var name := Trim(given);
        if !AcceptableDisplayName(name) then
          Transition(AwaitingDisplayName, [Notify("Display name must be 1 to 64 printable characters.")])
        else Transition(AwaitingUsername(name), [SendBotFather(name), PromptUsername])
    case UsernameGiven(input, random) => OnUsername(state, ChooseUsername(input, random))
    case ConfirmationGiven(input) => OnConfirmation(state, ParseConfirmation(input))
    case BotFather(response) => OnBotFather(state, response)
  }

  function OnUsername(state: SetupState, choice: Result<Username, UsernameError>): Transition {
    if !state.AwaitingUsername? then Transition(state, [])
    else
      match choice
      case Ok(username) =>
        Transition(AwaitingConfirmation(state.displayName, username), [PromptConfirmation(username)])
      case Err(MissingBotSuffix) => Transition(state, [Notify("Username must end with bot.")])
      case Err(InvalidCharactersOrLength) =>
        Transition(state, [Notify("Username must be 5-32 ASCII letters, digits, or underscores.")])
  }

  function OnConfirmation(state: SetupState, confirmation: Option<Confirmation>): Transition {
    if !state.AwaitingConfirmation? then Transition(state, [])
    else
      match confirmation
      case Some(Confirmed) =>
        Transition(AwaitingBotFather(state.displayName, state.username), [SendBotFather(state.username.display)])
      case Some(Declined) => Transition(Cancelled, [Notify("Setup cancelled.")])
      case None => Transition(state, [Notify("Reply exactly confirm or cancel.")])
  }

  function OnBotFather(state: SetupState, response: BotFatherResponse): Transition {
    if !state.AwaitingBotFather? then Transition(state, [])
    else
      match response
      case Success(token) => Transition(Completed(state.username, token), [Complete(state.username, token)])
      case UsernameOccupied => Rejected(state.displayName)
      case UsernameInvalid => Rejected(state.displayName)
      case LimitReached => Transition(Failed, [Notify("BotFather reports the bot limit was reached.")])
      case FloodWait => Transition(Failed, [Notify("BotFather requested a retry later.")])
      case Unexpected => Transition(Failed, [Notify("Unexpected BotFather response.")])
  }

  function Rejected(displayName: string): Transition {
    Transition(
      AwaitingUsername(displayName), [Notify("BotFather rejected that username; choose another."), PromptUsername])
  }

  // --------------------------------------------------- what the steps mean

  /** The input is this word in any case, with white space around it. */
  ghost predicate Reads(input: string, word: string) {
    exists before, text, after ::
      Blank(before) && Blank(after) && input == before + text + after && ToAsciiLower(text) == word
  }

  /** A word of visible characters is read exactly from a text that is that word
      once trimmed and in small letters. */
  lemma ReadsIff(input: string, word: string)
    requires word != "" && forall c <- word :: c in LOWER || c == '-'
    ensures Reads(input, word) <==> ToAsciiLower(Trim(input)) == word
  {
    TrimMeans(input);
    if ToAsciiLower(Trim(input)) == word {
      var before, after :| Blank(before) && Blank(after) && input == before + Trim(input) + after;
      assert Reads(input, word);
    }
    if before, text, after :| Blank(before) && Blank(after) && input == before + text + after && ToAsciiLower(text) == word {
      VisibleWord(text, word);
      TrimPadded(before, text, after);
    }
  }

  lemma VisibleWord(text: string, word: string)
    requires word != "" && (forall c <- word :: c in LOWER || c == '-') && ToAsciiLower(text) == word
    ensures text != "" && forall c <- text :: !IsWhitespace(c)
  {
    forall c | c in text ensures !IsWhitespace(c) {
      var i :| 0 <= i < |text| && text[i] == c;
      assert word[i] == LowerChar(c) && word[i] in word;
      SmallIff(LowerChar(c));
    }
  }

  lemma WordsAreWords()
    ensures (forall c <- "confirm" :: c in LOWER) && (forall c <- "cancel" :: c in LOWER) && (forall c <- "auto" :: c in LOWER)
  {
    forall c | c in "confirm" || c in "cancel" || c in "auto" ensures c in LOWER {
      SmallIff(c);
    }
  }

  /** "confirm" sends the username, "cancel" ends the setup, anything else leaves
      the state; in every other state a confirmation means nothing. */
  lemma ConfirmationMeans(s: SetupState, input: string)
    ensures var r := Next(s, ConfirmationGiven(input));
      if !s.AwaitingConfirmation? then r == Transition(s, [])
      else if Reads(input, "confirm") then
        r == Transition(AwaitingBotFather(s.displayName, s.username), [SendBotFather(s.username.display)])
      else if Reads(input, "cancel") then r == Transition(Cancelled, [Notify("Setup cancelled.")])
      else r == Transition(s, [Notify("Reply exactly confirm or cancel.")])
    ensures !(Reads(input, "confirm") && Reads(input, "cancel"))
  {
    WordsAreWords();
    ReadsIff(input, "confirm");
    ReadsIff(input, "cancel");
  }

  /** A username is generated for "auto" and "-", taken as it is typed when it is
      valid, and asked for again with the reason when it is not. */
  lemma UsernameMeans(s: SetupState, input: string, random: Option<Entropy>)
    ensures var r := Next(s, UsernameGiven(input, random));
      if !s.AwaitingUsername? then r == Transition(s, [])
      else
        var generated := Reads(input, "auto") || Reads(input, "-");
        var text := if !generated then input else if random.Some? then GeneratedName(random.value) else "";
        var username := Username(ToAsciiLower(text), text);
        if ValidUsername(username) then
          r == Transition(AwaitingConfirmation(s.displayName, username), [PromptConfirmation(username)])
        else if !generated && !EndsWith(ToAsciiLower(input), "bot") then
          r == Transition(s, [Notify("Username must end with bot.")])
        else r == Transition(s, [Notify("Username must be 5-32 ASCII letters, digits, or underscores.")])
    ensures random.Some? ==> ValidUsername(Username(ToAsciiLower(GeneratedName(random.value)), GeneratedName(random.value)))
  {
    hide GeneratedName, ValidateUsername, Reads, Trim;
    WordsAreWords();
    ReadsIff(input, "auto");
    ReadsIff(input, "-");
    ValidateUsernameIff(input);
    if random.Some? {
      ValidateUsernameIff(GeneratedName(random.value));
      GeneratedIsValid(random.value);
    }
  }

  /** A display name is taken without the white space around it when it has 1 to
      64 bytes and no control character. */
  lemma DisplayNameMeans(s: SetupState, given: string)
    ensures var r, name := Next(s, DisplayNameGiven(given)), Trim(given);
      if !s.AwaitingDisplayName? then r == Transition(s, [])
      else if 1 <= ByteLength(name) <= 64 && forall c <- name :: !IsControl(c) then
        r == Transition(AwaitingUsername(name), [SendBotFather(name), PromptUsername])
      else r == Transition(s, [Notify("Display name must be 1 to 64 printable characters.")])
  {
    UnitsBounds(Trim(given));
  }

  /** A success completes the setup with its token, a rejected name asks for
      another, and every other reply ends it; outside of waiting for BotFather a
      reply means nothing. */
  lemma BotFatherMeans(s: SetupState, response: BotFatherResponse)
    ensures var r := Next(s, BotFather(response));
      if !s.AwaitingBotFather? then r == Transition(s, [])
      else
        match response
        case Success(token) => r == Transition(Completed(s.username, token), [Complete(s.username, token)])
        case UsernameOccupied =>
          r == Transition(AwaitingUsername(s.displayName), [Notify("BotFather rejected that username; choose another."), PromptUsername])
        case UsernameInvalid =>
          r == Transition(AwaitingUsername(s.displayName), [Notify("BotFather rejected that username; choose another."), PromptUsername])
        case LimitReached => r == Transition(Failed, [Notify("BotFather reports the bot limit was reached.")])
        case FloodWait => r == Transition(Failed, [Notify("BotFather requested a retry later.")])
        case Unexpected => r == Transition(Failed, [Notify("Unexpected BotFather response.")])
  {
  }

  /** Commands work in every state; a timeout ends exactly the four states that
      wait for someone. */
  lemma CommandsMean(s: SetupState)
    ensures Next(s, CommandCancel) == Transition(Cancelled, [Notify("Setup cancelled.")])
    ensures Next(s, CommandNewBot) == Transition(AwaitingDisplayName, [SendBotFather("/newbot"), PromptDisplayName])
    ensures Next(s, Timeout) ==
      if s.AwaitingDisplayName? || s.AwaitingUsername? || s.AwaitingConfirmation? || s.AwaitingBotFather?
      then Transition(TimedOut, [Notify("Setup timed out.")]) else Transition(s, [])
  {
  }

  // ------------------------------------------------------------- every run

  function StateAfter(events: seq<SetupEvent>): SetupState
    decreases |events|
  {
    if events == [] then Idle else Next(StateAfter(events[..|events| - 1]), events[|events| - 1]).state
  }

  function EffectsAt(events: seq<SetupEvent>, i: nat): seq<SetupEffect>
    requires i < |events|
  {
    Next(StateAfter(events[..i]), events[i]).effects
  }

  lemma ChosenIsValid(input: string, random: Option<Entropy>)
    ensures var r := ChooseUsername(input, random); r.Ok? ==> ValidUsername(r.value)
  {
    ValidateUsernameIff(input);
    if random.Some? {
      ValidateUsernameIff(GeneratedName(random.value));
    }
  }

  ghost predicate HoldsValid(s: SetupState) {
    s.AwaitingConfirmation? || s.AwaitingBotFather? || s.Completed? ==> ValidUsername(s.username)
  }

  lemma StepHoldsValid(s: SetupState, e: SetupEvent)
    requires HoldsValid(s)
    ensures HoldsValid(Next(s, e).state)
  {
    if e.UsernameGiven? {
      ChosenIsValid(e.input, e.random);
    }
  }

  /** In every reachable state a username that is held is a valid one. */
  lemma {:induction false} HeldUsernameIsValid(events: seq<SetupEvent>)
    ensures HoldsValid(StateAfter(events))
    decreases |events|
  {
    if events != [] {
      HeldUsernameIsValid(events[..|events| - 1]);
      StepHoldsValid(StateAfter(events[..|events| - 1]), events[|events| - 1]);
    }
  }

  ghost predicate NoNewBotFrom(events: seq<SetupEvent>, i: nat) {
    forall k :: i <= k < |events| ==> !events[k].CommandNewBot?
  }

  /** Event i made the user confirm username u. */
  ghost predicate PromptedAt(events: seq<SetupEvent>, i: nat, u: Username) {
    i < |events| && events[i].UsernameGiven? && EffectsAt(events, i) == [PromptConfirmation(u)]
  }

  ghost predicate PromptedSinceNewBot(events: seq<SetupEvent>, u: Username) {
    exists i: nat :: PromptedAt(events, i, u) && NoNewBotFrom(events, i)
  }

  /** Event i is a confirmation that sent u to BotFather, after the user had
      been asked for exactly that since the last new-bot command. */
  ghost predicate ConfirmedAt(events: seq<SetupEvent>, i: nat, u: Username) {
    && i < |events| && events[i].ConfirmationGiven? && Reads(events[i].input, "confirm")
    && EffectsAt(events, i) == [SendBotFather(u.display)]
    && PromptedSinceNewBot(events[..i], u)
  }

  ghost predicate ConfirmedSinceNewBot(events: seq<SetupEvent>, u: Username) {
    exists i: nat :: ConfirmedAt(events, i, u) && NoNewBotFrom(events, i)
  }

  ghost predicate CompletedAt(events: seq<SetupEvent>, i: nat, u: Username, token: string) {
    && i < |events| && events[i] == BotFather(Success(token))
    && EffectsAt(events, i) == [Complete(u, token)]
    && ConfirmedSinceNewBot(events[..i], u)
  }

  /** What the state says about the events that led to it. */
  ghost predicate Explained(events: seq<SetupEvent>) {
    match StateAfter(events)
    case AwaitingConfirmation(_, u) => PromptedSinceNewBot(events, u)
    case AwaitingBotFather(_, u) => ConfirmedSinceNewBot(events, u)
    case Completed(u, token) => exists i: nat :: CompletedAt(events, i, u, token) && NoNewBotFrom(events, i)
    case _ => true
  }

  lemma ExtendPrompted(events: seq<SetupEvent>, e: SetupEvent, u: Username)
    requires PromptedSinceNewBot(events, u) && !e.CommandNewBot?
    ensures PromptedSinceNewBot(events + [e], u)
  {
    var i: nat :| PromptedAt(events, i, u) && NoNewBotFrom(events, i);
    assert (events + [e])[..i] == events[..i];
    assert PromptedAt(events + [e], i, u);
  }

  lemma ExtendConfirmed(events: seq<SetupEvent>, e: SetupEvent, u: Username)
    requires ConfirmedSinceNewBot(events, u) && !e.CommandNewBot?
    ensures ConfirmedSinceNewBot(events + [e], u)
  {
    var i: nat :| ConfirmedAt(events, i, u) && NoNewBotFrom(events, i);
    assert (events + [e])[..i] == events[..i];
    assert ConfirmedAt(events + [e], i, u);
  }

  lemma ExtendCompleted(events: seq<SetupEvent>, e: SetupEvent, u: Username, token: string)
    requires exists i: nat :: CompletedAt(events, i, u, token) && NoNewBotFrom(events, i)
    requires !e.CommandNewBot?
    ensures exists i: nat :: CompletedAt(events + [e], i, u, token) && NoNewBotFrom(events + [e], i)
  {
    var i: nat :| CompletedAt(events, i, u, token) && NoNewBotFrom(events, i);
    assert (events + [e])[..i] == events[..i];
    assert CompletedAt(events + [e], i, u, token);
  }

  /** How each state that holds a username is entered or kept. */
  lemma StepOrigins(s: SetupState, e: SetupEvent)
    ensures var r := Next(s, e);
      && (r.state.AwaitingConfirmation? ==>
            || (r.state == s && !e.CommandNewBot?)
            || (e.UsernameGiven? && r.effects == [PromptConfirmation(r.state.username)]))
      && (r.state.AwaitingBotFather? ==>
            || (r.state == s && !e.CommandNewBot?)
            || (&& e.ConfirmationGiven? && Reads(e.input, "confirm")
                && s.AwaitingConfirmation? && s.username == r.state.username
                && r.effects == [SendBotFather(r.state.username.display)]))
      && (r.state.Completed? ==>
            || (r.state == s && !e.CommandNewBot?)
            || (&& e == BotFather(Success(r.state.token)) && s.AwaitingBotFather? && s.username == r.state.username
                && r.effects == [Complete(r.state.username, r.state.token)]))
  {
    if e.ConfirmationGiven? {
      ConfirmationMeans(s, e.input);
      hide OnConfirmation, ParseConfirmation;
    }
  }

  lemma ExplainedStep(events: seq<SetupEvent>, e: SetupEvent)
    requires Explained(events)
    ensures Explained(events + [e])
  {
    var all, n := events + [e], |events|;
    assert all[..n] == events && all[n] == e;
    var s, s' := StateAfter(events), StateAfter(all);
    assert s' == Next(s, e).state && EffectsAt(all, n) == Next(s, e).effects;
    StepOrigins(s, e);
    if s' == s && !e.CommandNewBot? {
      KeptStateIsExplained(events, e);
    } else if s'.AwaitingConfirmation? {
      assert PromptedAt(all, n, s'.username);
    } else if s'.AwaitingBotFather? {
      assert ConfirmedAt(all, n, s'.username);
    } else if s'.Completed? {
      assert CompletedAt(all, n, s'.username, s'.token);
    }
  }

  lemma KeptStateIsExplained(events: seq<SetupEvent>, e: SetupEvent)
    requires Explained(events) && !e.CommandNewBot? && StateAfter(events + [e]) == StateAfter(events)
    ensures Explained(events + [e])
  {
    match StateAfter(events)
    case AwaitingConfirmation(_, u) => ExtendPrompted(events, e, u);
    case AwaitingBotFather(_, u) => ExtendConfirmed(events, e, u);
    case Completed(u, token) => ExtendCompleted(events, e, u, token);
    case _ =>
  }

  /** For every event sequence from the start: a username waits for BotFather
      only after the user was asked to confirm exactly that name and did, and a
      completed setup carries it with the token of a success reply, all since
      the last new-bot command. */
  lemma {:induction false} EveryStateIsExplained(events: seq<SetupEvent>)
    ensures Explained(events)
    decreases |events|
  {
    if events != [] {
      var init, last := events[..|events| - 1], events[|events| - 1];
      EveryStateIsExplained(init);
      ExplainedStep(init, last);
      assert init + [last] == events;
    }
  }

  lemma StepSends(s: SetupState, e: SetupEvent, text: string)
    requires SendBotFather(text) in Next(s, e).effects
    ensures
      || (e.CommandNewBot? && text == "/newbot")
      || (e.DisplayNameGiven? && text == Trim(e.name) && AcceptableDisplayName(text))
      || (&& e.ConfirmationGiven? && Reads(e.input, "confirm") && s.AwaitingConfirmation?
          && text == s.username.display && Next(s, e).effects == [SendBotFather(text)])
  {
    hide Trim, ParseConfirmation, AcceptableDisplayName, ChooseUsername, OnUsername, OnBotFather, Reads;
    if e.ConfirmationGiven? {
      ConfirmationMeans(s, e.input);
    }
    if e.UsernameGiven? {
      UsernameSendsNothing(s, ChooseUsername(e.input, e.random), text);
    } else if e.BotFather? {
      ReplySendsNothing(s, e.response, text);
    }
  }

  lemma UsernameSendsNothing(s: SetupState, choice: Result<Username, UsernameError>, text: string)
    ensures SendBotFather(text) !in OnUsername(s, choice).effects
  {
  }

  lemma ReplySendsNothing(s: SetupState, response: BotFatherResponse, text: string)
    ensures SendBotFather(text) !in OnBotFather(s, response).effects
  {
  }

  /** Whatever is sent to BotFather at event i is the command, an acceptable
      display name, or a valid username the user was shown and confirmed. */
  lemma SendsAreIntended(events: seq<SetupEvent>, i: nat, text: string)
    requires i < |events| && SendBotFather(text) in EffectsAt(events, i)
    ensures
      || (events[i].CommandNewBot? && text == "/newbot")
      || (events[i].DisplayNameGiven? && text == Trim(events[i].name) && AcceptableDisplayName(text))
      || exists u :: ValidUsername(u) && u.display == text && ConfirmedAt(events, i, u)
  {
    var s := StateAfter(events[..i]);
    StepSends(s, events[i], text);
    if events[i].ConfirmationGiven? {
      EveryStateIsExplained(events[..i]);
      HeldUsernameIsValid(events[..i]);
      assert PromptedSinceNewBot(events[..i], s.username);
      assert ConfirmedAt(events, i, s.username);
    }
  }
}
