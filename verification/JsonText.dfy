/** JSON strings as section 7 of RFC 8259 defines them, and a reader for flat objects.  The writers of the
    transcript and of the export are proved against this reader. */
module JsonText {
  import opened CText

  /** The character that a two-character escape stands for; `\u` is never written, so never read. */
  function EscapeMeaning(c: char): Option<char> {
    if c == '"' || c == '\\' || c == '/' then Some(c)
    else if c == 'b' then Some('\U{08}')
    else if c == 'f' then Some('\U{0C}')
    else if c == 'n' then Some('\n')
    else if c == 'r' then Some('\r')
    else if c == 't' then Some('\t')
    else None
  }

  /** Characters that may stand for themselves inside a string. */
  predicate Unescaped(c: char) { c as int >= 0x20 && c != '"' && c != '\\' }

  /** The characters between the quotes of a legal JSON string. */
  predicate LegalContent(s: string) {
    if s == "" then true
    else if s[0] == '\\' then |s| >= 2 && EscapeMeaning(s[1]).Some? && LegalContent(s[2..])
    else Unescaped(s[0]) && LegalContent(s[1..])
  }

  predicate LegalString(s: string) {
    |s| >= 2 && s[0] == '"' && s[|s| - 1] == '"' && LegalContent(s[1..|s| - 1])
  }

  datatype Scan = Scan(value: string, rest: string)

  /** Reads string content up to its closing quote.  Raw control characters are let through: whether they
      are legal is `LegalContent`'s business. */
  function ScanString(s: string): Option<Scan> {
    if s == "" then None
    else if s[0] == '"' then Some(Scan("", s[1..]))
    else if s[0] == '\\' then
      if |s| < 2 || EscapeMeaning(s[1]).None? then None
      else
        match ScanString(s[2..])
        case None => None
        case Some(tail) => Some(Scan([EscapeMeaning(s[1]).value] + tail.value, tail.rest))
    else
      match ScanString(s[1..])
      case None => None
      case Some(tail) => Some(Scan([s[0]] + tail.value, tail.rest))
  }

  /** Characters of numbers and of the literal names. */
  predicate BareChar(c: char) { '0' <= c <= '9' || 'a' <= c <= 'z' }

  function ScanBare(s: string): (r: Scan)
    ensures |r.rest| <= |s| && s == r.value + r.rest
  {
    if s == "" || !BareChar(s[0]) then Scan("", s)
    else
      var tail := ScanBare(s[1..]);
      Scan([s[0]] + tail.value, tail.rest)
  }

  lemma {:induction false} ScanStringShrinks(s: string)
    ensures ScanString(s).Some? ==> |ScanString(s).value.rest| < |s|
  {
    if s != "" && s[0] != '"' {
      if s[0] != '\\' {
        ScanStringShrinks(s[1..]);
      } else if |s| >= 2 {
        ScanStringShrinks(s[2..]);
      }
    }
  }

  datatype Items = Items(texts: seq<string>, rest: string)

  /** Reads strings separated by commas up to the closing bracket. */
  function ScanItems(s: string): (r: Option<Items>)
    ensures r.Some? ==> |r.value.rest| < |s|
    decreases |s|
  {
    if s == "" || s[0] != '"' then None
    else
      ScanStringShrinks(s[1..]);
      match ScanString(s[1..])
      case None => None
      case Some(item) =>
        if item.rest == "" then None
        else if item.rest[0] == ']' then Some(Items([item.value], item.rest[1..]))
        else if item.rest[0] != ',' then None
        else
          match ScanItems(item.rest[1..])
          case None => None
          case Some(tail) => Some(Items([item.value] + tail.texts, tail.rest))
  }

  /** The strings of an array that has some. */
  function ReadArray(s: string): Option<seq<string>> {
    if s == "" || s[0] != '[' then None
    else
      match ScanItems(s[1..])
      case None => None
      case Some(list) => if list.rest == "" then Some(list.texts) else None
  }

  /** A value is a string, a number without sign or fraction, a literal name or an array of strings.  All are read
      as text; that of an array is left for `ReadArray` to take apart. */
  function ScanValue(s: string): Option<Scan> {
    if s == "" then None
    else if s[0] == '"' then ScanString(s[1..])
    else if s[0] == '[' then
      match ScanItems(s[1..])
      case None => None
      case Some(list) => Some(Scan(s[..|s| - |list.rest|], list.rest))
    else
      var bare := ScanBare(s);
      if bare.value == "" then None else Some(bare)
  }

  datatype Member = Member(key: string, value: string)

  /** Reads `"key":value` pairs separated by commas up to the closing brace and line feed. */
  function ReadMembers(s: string): Option<seq<Member>>
    decreases |s|
  {
    if s == "" || s[0] != '"' then None
    else
      match ScanString(s[1..])
      case None => None
      case Some(key) =>
        if key.rest == "" || key.rest[0] != ':' then None
        else
          match ScanValue(key.rest[1..])
          case None => None
          case Some(v) =>
            if v.rest == "}\n" then Some([Member(key.value, v.value)])
            else if v.rest == "" || v.rest[0] != ',' then None
            else
              ScanStringShrinks(s[1..]);
              ScanValueShrinks(key.rest[1..]);
              match ReadMembers(v.rest[1..])
              case None => None
              case Some(tail) => Some([Member(key.value, v.value)] + tail)
  }

  lemma ScanValueShrinks(s: string)
    ensures ScanValue(s).Some? ==> |ScanValue(s).value.rest| < |s|
  {
    if s != "" && s[0] == '"' {
      ScanStringShrinks(s[1..]);
    }
  }

  function ReadLine(line: string): Option<seq<Member>> {
    if line == "" || line[0] != '{' then None else ReadMembers(line[1..])
  }

  /** `content` is what stands between the quotes of a string that is read as `text`. */
  predicate Encodes(content: string, text: string) {
    ScanString(content + "\"") == Some(Scan(text, ""))
  }

  lemma {:induction false} ScanExtends(s: string, rest: string)
    requires ScanString(s).Some?
    ensures var r := ScanString(s).value; ScanString(s + rest) == Some(Scan(r.value, r.rest + rest))
  {
    if s[0] == '"' {
      assert (s + rest)[1..] == s[1..] + rest;
    } else if s[0] == '\\' {
      assert (s + rest)[2..] == s[2..] + rest;
      ScanExtends(s[2..], rest);
    } else {
      assert (s + rest)[1..] == s[1..] + rest;
      ScanExtends(s[1..], rest);
    }
  }

  lemma {:induction false} ItemsExtend(s: string, rest: string)
    requires ScanItems(s).Some?
    ensures var r := ScanItems(s).value; ScanItems(s + rest) == Some(Items(r.texts, r.rest + rest))
    decreases |s|
  {
    hide ScanString;
    ScanStringShrinks(s[1..]);
    ScanExtends(s[1..], rest);
    assert (s + rest)[1..] == s[1..] + rest;
    var item := ScanString(s[1..]).value;
    assert (item.rest + rest)[1..] == item.rest[1..] + rest;
    if item.rest[0] == ',' {
      ItemsExtend(item.rest[1..], rest);
    }
  }

  lemma ArrayStops(s: string, rest: string)
    requires ReadArray(s).Some?
    ensures ScanValue(s + rest) == Some(Scan(s, rest))
  {
    hide ScanItems;
    ItemsExtend(s[1..], rest);
    assert (s + rest)[1..] == s[1..] + rest;
    assert "" + rest == rest && (s + rest)[..|s|] == s;
  }

  lemma EncodedThenQuote(content: string, text: string, rest: string)
    requires Encodes(content, text)
    ensures ScanString(content + "\"" + rest) == Some(Scan(text, rest))
  {
    ScanExtends(content + "\"", rest);
    assert "" + rest == rest;
  }

  /** Text without quotes or backslashes encodes itself. */
  predicate Plain(s: string) { forall i :: 0 <= i < |s| ==> s[i] != '"' && s[i] != '\\' && s[i] != '\n' }

  lemma {:induction false} PlainEncodesItself(s: string)
    requires Plain(s)
    ensures Encodes(s, s)
  {
    if s == "" {
      assert (s + "\"")[1..] == "";
    } else {
      PlainEncodesItself(s[1..]);
      assert (s + "\"")[1..] == s[1..] + "\"";
      assert s == [s[0]] + s[1..];
    }
  }

  lemma {:induction false} ScanBareStops(bare: string, rest: string)
    requires forall i :: 0 <= i < |bare| ==> BareChar(bare[i])
    requires rest == "" || !BareChar(rest[0])
    ensures ScanBare(bare + rest) == Scan(bare, rest)
  {
    if bare == "" {
      assert bare + rest == rest;
    } else {
      assert (bare + rest)[1..] == bare[1..] + rest;
      ScanBareStops(bare[1..], rest);
    }
  }
}
