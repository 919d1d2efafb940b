/**
 * What may differ between two texts that the parser reads alike: the case of keys and section names,
 * white space around them, blank lines and comments. In particular the usual spelling of a
 * configuration file, and marks written in hexadecimal.
 */
module ProfileSpelling {
  import opened Wrappers
  import opened Text
  import opened Profile
  import opened ProfileText

  // ---- Letters ----

  /** The same ASCII letter in either case, or the same character. */
  predicate SameLetter(a: char, b: char) {
    || a == b
    || (65 <= a as int <= 90 && b as int == a as int + 32)
    || (97 <= a as int <= 122 && b as int == a as int - 32)
  }

  predicate SameLetters(a: string, b: string) {
    |a| == |b| && forall i :: 0 <= i < |a| ==> SameLetter(a[i], b[i])
  }

  lemma SameLowered(a: char, b: char)
    requires SameLetter(a, b)
    ensures LowerChar(a) == LowerChar(b) && (IsSpace(a) <==> IsSpace(b)) && CharSize(a) == CharSize(b)
    ensures a == b || (a != '=' && a != '#' && a != '[' && a != ']')
  {
  }

  lemma {:induction false} LowerForgetsCase(a: string, b: string)
    requires SameLetters(a, b)
    ensures Lower(a) == Lower(b)
  {
    if a != "" {
      SameLowered(a[0], b[0]);
      LowerForgetsCase(a[1..], b[1..]);
    }
  }

  // ---- White space ----

  predicate AllSpace(s: string) {
    forall i :: 0 <= i < |s| ==> IsSpace(s[i])
  }

  lemma {:induction false} TrimLeftSkips(pre: string, s: string)
    requires AllSpace(pre)
    ensures TrimLeft(pre + s) == TrimLeft(s)
  {
    if pre == "" {
      assert pre + s == s;
    } else {
      assert (pre + s)[1..] == pre[1..] + s;
      TrimLeftSkips(pre[1..], s);
    }
  }

  lemma {:induction false} TrimRightSkips(s: string, post: string)
    requires AllSpace(post)
    ensures TrimRight(s + post) == TrimRight(s)
  {
    if post == "" {
      assert s + post == s;
    } else {
      assert (s + post)[..|s + post| - 1] == s + post[..|post| - 1];
      TrimRightSkips(s, post[..|post| - 1]);
    }
  }

  /** White space at both ends of a trimmed string is what trimming takes away. */
  lemma TrimOfPadded(pre: string, t: string, post: string)
    requires AllSpace(pre) && AllSpace(post) && Trimmed(t)
    ensures Trim(pre + t + post) == t
  {
    assert pre + t + post == pre + (t + post);
    TrimLeftSkips(pre, t + post);
    if t == "" {
      assert t + post == post && post + "" == post;
      TrimLeftSkips(post, "");
    } else {
      assert (t + post)[0] == t[0];
      TrimRightSkips(t, post);
    }
  }

  lemma Regrouped(a: string, b: string, c: string)
    ensures a + (b + c) == a + b + c
  {
  }

  lemma {:induction false} SpaceBefore(s: string) returns (pre: string)
    ensures AllSpace(pre) && s == pre + TrimLeft(s)
  {
    if s != "" && IsSpace(s[0]) {
      var rest := SpaceBefore(s[1..]);
      pre := [s[0]] + rest;
      Regrouped([s[0]], rest, TrimLeft(s[1..]));
      assert s == [s[0]] + s[1..];
    } else {
      pre := "";
    }
  }

  lemma {:induction false} SpaceAfter(s: string) returns (post: string)
    ensures AllSpace(post) && s == TrimRight(s) + post
  {
    if s != "" && IsSpace(s[|s| - 1]) {
      var front, last := s[..|s| - 1], [s[|s| - 1]];
      var rest := SpaceAfter(front);
      post := rest + last;
      Regrouped(TrimRight(front), rest, last);
      assert s == front + last;
    } else {
      post := "";
    }
  }

  lemma TrimParts(s: string) returns (pre: string, post: string)
    ensures AllSpace(pre) && AllSpace(post) && s == pre + Trim(s) + post && Trimmed(Trim(s))
  {
    pre := SpaceBefore(s);
    post := SpaceAfter(TrimLeft(s));
    TrimTrims(s);
    assert pre + (Trim(s) + post) == pre + Trim(s) + post;
  }

  /** More white space at the ends makes no difference. */
  lemma TrimOfMore(pre: string, s: string, post: string)
    requires AllSpace(pre) && AllSpace(post)
    ensures Trim(pre + s + post) == Trim(s)
  {
    var p, q := TrimParts(s);
    assert pre + s + post == (pre + p) + Trim(s) + (q + post);
    TrimOfPadded(pre + p, Trim(s), q + post);
  }

  lemma TrimOfCr(line: string)
    ensures Trim(DropCr(line)) == Trim(line)
  {
    if DropCr(line) != line {
      assert "" + DropCr(line) + "\r" == line;
      TrimOfMore("", DropCr(line), "\r");
    }
  }

  lemma SameSpace(a: string, b: string)
    requires SameLetters(a, b)
    ensures AllSpace(a) ==> AllSpace(b)
    ensures Trimmed(a) ==> Trimmed(b)
  {
    forall i | 0 <= i < |a| ensures IsSpace(a[i]) <==> IsSpace(b[i]) {
      SameLowered(a[i], b[i]);
    }
  }

  lemma SameParts(p: string, t: string, q: string, b: string)
    requires SameLetters(p + t + q, b) && AllSpace(p) && AllSpace(q) && Trimmed(t)
    ensures SameLetters(t, Trim(b))
  {
    var a, n, m := p + t + q, |p|, |p| + |t|;
    var x, y, z := b[..n], b[n..m], b[m..];
    assert b == x + y + z;
    assert a[..n] == p && a[n..m] == t && a[m..] == q;
    SameSpace(p, x);
    SameSpace(t, y);
    SameSpace(q, z);
    TrimOfPadded(x, y, z);
  }

  /** Strings with the same letters have the same letters after trimming. */
  lemma SameTrimmed(a: string, b: string)
    requires SameLetters(a, b)
    ensures SameLetters(Trim(a), Trim(b))
  {
    var p, q := TrimParts(a);
    SameParts(p, Trim(a), q, b);
  }

  // ---- Lines that are read alike ----

  /** A line in brackets, and the name between them. */
  predicate Bracketed(line: string) {
    var t := Trim(line);
    t != "" && t[0] == '[' && t[|t| - 1] == ']'
  }

  function NameOf(line: string): string
    requires Bracketed(line)
  {
    Trim(Trim(line)[1..|Trim(line)| - 1])
  }

  /** The key and the value of a line with an equals sign, without the white space around them. */
  function KeyOf(line: string): string
    requires SplitPair(line).Some?
  {
    Trim(SplitPair(line).value.0)
  }

  function ValueOf(line: string): string
    requires SplitPair(line).Some?
  {
    Trim(SplitPair(line).value.1)
  }

  /**
   * Two spellings of a line: they differ in white space at the ends, in the case of a section name,
   * or in the case of a key and the white space around it; section names and values may be padded.
   */
  predicate SameLine(a: string, b: string) {
    || Trim(a) == Trim(b)
    || (Bracketed(a) && Bracketed(b) && SameLetters(NameOf(a), NameOf(b)))
    || (!Bracketed(a) && SplitPair(a).Some? && SplitPair(b).Some?
        && SameLetters(KeyOf(a), KeyOf(b)) && ValueOf(a) == ValueOf(b))
  }

  lemma PaddedPair(pre: string, key: string, val: string, post: string)
    requires AllSpace(pre) && AllSpace(post) && '=' !in pre && '=' !in key
    ensures SplitPair(pre + (key + "=" + val) + post) == Some((pre + key, val + post))
    ensures Trim(pre + key) == Trim(key) && Trim(val + post) == Trim(val)
  {
    assert pre + (key + "=" + val) + post == (pre + key) + "=" + (val + post);
    SplitAtEquals(pre + key, val + post);
    assert pre + key + "" == pre + key && "" + val + post == val + post;
    TrimOfMore(pre, key, "");
    TrimOfMore("", val, post);
  }

  lemma PairOfPadded(a: string, pre: string, x: string, post: string)
    requires a == pre + x + post && AllSpace(pre) && AllSpace(post) && SplitPair(a).Some?
    ensures SplitPair(x).Some? && KeyOf(x) == KeyOf(a) && ValueOf(x) == ValueOf(a)
  {
    EqualsStays(a, pre, x, post);
    var p := SplitPair(x).value;
    assert x == p.0 + "=" + p.1;
    PaddedPair(pre, p.0, p.1, post);
  }

  /** Trimming a line first changes neither its key nor its value. */
  lemma TrimKeepsPair(a: string)
    requires SplitPair(a).Some?
    ensures SplitPair(Trim(a)).Some? && KeyOf(Trim(a)) == KeyOf(a) && ValueOf(Trim(a)) == ValueOf(a)
  {
    var pre, post := TrimParts(a);
    PairOfPadded(a, pre, Trim(a), post);
  }

  lemma TrimmedEntry(x: string)
    requires SplitPair(x).Some? && Trimmed(x)
    ensures var k, v := KeyOf(x), ValueOf(x);
      && x[0] == (if k != "" then k[0] else '=') && x[|x| - 1] == (if v != "" then v[|v| - 1] else '=')
  {
    var p := SplitPair(x).value;
    assert x == p.0 + "=" + p.1;
    EndsOfPair(x, p.0, p.1);
  }

  /** An entry is what its line says, unless that is a comment or stands in brackets. */
  lemma EntryShape(a: string)
    requires SplitPair(a).Some?
    ensures var k, v := KeyOf(a), ValueOf(a);
      && (Bracketed(a) <==> k != "" && k[0] == '[' && v != "" && v[|v| - 1] == ']')
      && (!Bracketed(a) ==> Classify(a) == if k != "" && k[0] == '#' then Blank else Entry(k, v))
  {
    TrimTrims(a);
    TrimKeepsPair(a);
    TrimmedEntry(Trim(a));
  }

  lemma SplitAtEquals(key: string, val: string)
    requires '=' !in key
    ensures SplitPair(key + "=" + val) == Some((key, val))
  {
    IndexOfFirst(key, '=', val);
    var line := key + ['='] + val;
    assert line[..|key|] == key && line[|key| + 1..] == val;
  }

  lemma EqualsStays(a: string, pre: string, x: string, post: string)
    requires a == pre + x + post && AllSpace(pre) && AllSpace(post) && SplitPair(a).Some?
    ensures IndexOf(x, '=').Some? && '=' !in pre
  {
    NoEqualsInSpace(pre);
    NoEqualsInSpace(post);
    assert '=' in a;
  }

  lemma NoEqualsInSpace(s: string)
    requires AllSpace(s)
    ensures '=' !in s
  {
    assert !IsSpace('=');
  }

  /** A string that starts, or ends, with no space keeps that end. */
  lemma FirstKept(s: string)
    requires s != "" && !IsSpace(s[0])
    ensures Trim(s) != "" && Trim(s)[0] == s[0]
  {
    var post := SpaceAfter(s);
    assert TrimRight(s) == "" ==> s == post;
  }

  lemma LastKept(s: string)
    requires s != "" && !IsSpace(s[|s| - 1])
    ensures Trim(s) != "" && Trim(s)[|Trim(s)| - 1] == s[|s| - 1]
  {
    var pre := SpaceBefore(s);
    assert TrimLeft(s) == "" ==> s == pre;
  }

  /** The first and the last character of a trimmed line, by its key and value. */
  lemma EndsOfPair(x: string, key: string, val: string)
    requires Trimmed(x) && x == key + "=" + val
    ensures x[0] == if Trim(key) != "" then Trim(key)[0] else '='
    ensures x[|x| - 1] == if Trim(val) != "" then Trim(val)[|Trim(val)| - 1] else '='
  {
    if key != "" {
      assert x[0] == key[0];
      FirstKept(key);
    }
    if val != "" {
      assert x[|x| - 1] == val[|val| - 1];
      LastKept(val);
    }
  }

  /** Two meanings of a line that differ in the case of the key alone. */
  predicate SameMeaning(a: Line, b: Line) {
    match a
    case Entry(key, val) => b.Entry? && SameLetters(key, b.key) && val == b.val
    case _ => a == b
  }

  lemma SpellingsMeanTheSame(a: string, b: string)
    requires SameLine(a, b)
    ensures SameMeaning(Classify(a), Classify(b))
  {
    if Trim(a) == Trim(b) {
      assert Classify(a) == Classify(b);
    } else if Bracketed(a) && Bracketed(b) {
      LowerForgetsCase(NameOf(a), NameOf(b));
    } else {
      EntryShape(a);
      EntryShape(b);
      if KeyOf(a) != "" {
        SameLowered(KeyOf(a)[0], KeyOf(b)[0]);
      }
    }
  }

  // ---- Texts that are read alike ----

  /** The same error, up to the case of the key that it quotes. */
  predicate SameError(a: ParseError, b: ParseError) {
    match a
    case ExecutableDirective(key) => b.ExecutableDirective? && SameLetters(key, b.key)
    case PeerKeyBeforePeer(key) => b.PeerKeyBeforePeer? && SameLetters(key, b.key)
    case OutsideSection(key) => b.OutsideSection? && SameLetters(key, b.key)
    case _ => a == b
  }

  predicate SameResult<T(==)>(a: Result<T, ParseError>, b: Result<T, ParseError>) {
    if a.Ok? then a == b else b.Err? && SameError(a.error, b.error)
  }

  /** Two spellings of a text, line by line: both lines fit the scanner's buffer or neither does. */
  predicate SameText(a: string, b: string)
    decreases |a|
  {
    if a == "" || b == "" then a == b
    else
      && SameLine(FirstLine(a), FirstLine(b))
      && (Size(FirstLine(a)) < MAX_LINE <==> Size(FirstLine(b)) < MAX_LINE)
      && SameText(AfterLine(a), AfterLine(b))
  }

  lemma MeaningsAgree(r: Reading, a: Line, b: Line)
    requires SameMeaning(a, b)
    ensures SameResult(Meaning(r, a), Meaning(r, b))
  {
    if a.Entry? {
      LowerForgetsCase(a.key, b.key);
    } else {
      SameIsSame(Meaning(r, a));
    }
  }

  lemma SameIsSame<T>(a: Result<T, ParseError>)
    ensures SameResult(a, a)
  {
  }

  lemma {:induction false} TextsAgree(r: Reading, a: string, b: string)
    requires SameText(a, b)
    ensures SameResult(ReadLines(r, Scanned(a)), ReadLines(r, Scanned(b)))
    ensures Scannable(a) <==> Scannable(b)
    decreases |a|
  {
    if a == "" || b == "" {
      SameIsSame(ReadLines(r, Scanned(a)));
    } else {
      LinesAgree(FirstLine(a), FirstLine(b));
      var x, y := Classify(DropCr(FirstLine(a))), Classify(DropCr(FirstLine(b)));
      MeaningsAgree(r, x, y);
      var next := Meaning(r, x);
      TextsAgree(if next.Ok? then next.value else r, AfterLine(a), AfterLine(b));
      ScannedStep(r, a);
      ScannedStep(r, b);
    }
  }

  lemma ClassifyOfCr(line: string)
    ensures Classify(DropCr(line)) == Classify(line)
  {
    TrimOfCr(line);
  }

  lemma LinesAgree(a: string, b: string)
    requires SameLine(a, b)
    ensures SameMeaning(Classify(DropCr(a)), Classify(DropCr(b)))
  {
    ClassifyOfCr(a);
    ClassifyOfCr(b);
    SpellingsMeanTheSame(a, b);
  }

  lemma ScannedStep(r: Reading, a: string)
    requires a != ""
    ensures ReadLines(r, Scanned(a)) ==
      if Size(FirstLine(a)) >= MAX_LINE then Ok(r)
      else
        var next := Meaning(r, Classify(DropCr(FirstLine(a))));
        if next.Err? then next else ReadLines(next.value, Scanned(AfterLine(a)))
  {
    if Size(FirstLine(a)) < MAX_LINE {
      assert Scanned(a)[0] == DropCr(FirstLine(a)) && Scanned(a)[1..] == Scanned(AfterLine(a));
    }
  }

  /**
   * The case of keys and section names does not matter, nor white space around keys, names and
   * values: two spellings of a text give the same configuration, or the same error up to the case of
   * the key it quotes.
   */
  lemma SpellingDoesNotMatter(a: string, b: string)
    requires SameText(a, b)
    ensures SameResult(Parsed(a), Parsed(b))
  {
    TextsAgree(START, a, b);
  }

  // ---- The usual spelling of a configuration file ----

  function UsualInterfaceKey(key: string): string {
    match key
    case "privatekey" => "PrivateKey"
    case "address" => "Address"
    case "dns" => "DNS"
    case "mtu" => "MTU"
    case "listenport" => "ListenPort"
    case "fwmark" => "FwMark"
    case _ => key
  }

  function UsualPeerKey(key: string): string {
    match key
    case "publickey" => "PublicKey"
    case "presharedkey" => "PresharedKey"
    case "endpoint" => "Endpoint"
    case "allowedips" => "AllowedIPs"
    case "persistentkeepalive" => "PersistentKeepalive"
    case _ => key
  }

  function UsualObfuscationKey(key: string): string {
    match key
    case "jc" => "Jc"
    case "jmin" => "Jmin"
    case "jmax" => "Jmax"
    case "s1" => "S1"
    case "s2" => "S2"
    case "s3" => "S3"
    case "s4" => "S4"
    case "h1" => "H1"
    case "h2" => "H2"
    case "h3" => "H3"
    case "h4" => "H4"
    case "i1" => "I1"
    case "i2" => "I2"
    case "i3" => "I3"
    case "i4" => "I4"
    case "i5" => "I5"
    case _ => key
  }

  function UsualKey(key: string): string {
    UsualObfuscationKey(UsualPeerKey(UsualInterfaceKey(key)))
  }

  /** A line with its key or section name in the usual spelling, and padding around the equals sign. */
  function UsualLine(pad: string, line: string): string {
    if line == Header("interface") then Header("Interface")
    else if line == Header("peer") then Header("Peer")
    else
      match SplitPair(line)
      case None => line
      case Some(p) => if UsualKey(p.0) == p.0 then line else UsualKey(p.0) + pad + "=" + pad + p.1
  }

  function UsualText(pad: string, lines: seq<string>): string {
    if lines == [] then "" else UsualLine(pad, lines[0]) + "\n" + UsualText(pad, lines[1..])
  }

  /** A key of the parser, and a spelling of it that starts with a capital. */
  predicate Capitalised(usual: string, key: string) {
    SameLetters(usual, key) && KeyName(key) && 'A' <= usual[0] <= 'Z'
  }

  lemma CapitalisedShape(usual: string, key: string)
    requires Capitalised(usual, key)
    ensures Trimmed(usual) && Trimmed(key) && '=' !in usual && '=' !in key && '\n' !in usual
  {
    forall i | 0 <= i < |key| ensures !IsSpace(usual[i]) && usual[i] != '=' && usual[i] != '\n' {
      SameLowered(usual[i], key[i]);
    }
  }

  lemma LongInterfaceKeys()
    ensures SameLetters("PrivateKey", "privatekey") && SameLetters("ListenPort", "listenport")
  {
  }

  lemma ShortInterfaceKeys()
    ensures SameLetters("Address", "address") && SameLetters("DNS", "dns") && SameLetters("MTU", "mtu")
    ensures SameLetters("FwMark", "fwmark")
  {
  }

  lemma LongPeerKeys()
    ensures SameLetters("PublicKey", "publickey") && SameLetters("PresharedKey", "presharedkey")
  {
  }

  lemma ShortPeerKeys()
    ensures SameLetters("Endpoint", "endpoint") && SameLetters("AllowedIPs", "allowedips")
  {
  }

  lemma KeepaliveKey()
    ensures SameLetters("PersistentKeepalive", "persistentkeepalive")
  {
    SameJoined("Persistent", "persistent", "Keepalive", "keepalive");
    assert "Persistent" + "Keepalive" == "PersistentKeepalive";
    assert "persistent" + "keepalive" == "persistentkeepalive";
  }

  lemma SameJoined(a: string, b: string, c: string, d: string)
    requires SameLetters(a, b) && SameLetters(c, d)
    ensures SameLetters(a + c, b + d)
  {
  }

  lemma Capital(usual: string, key: string)
    requires SameLetters(usual, key) && KeyName(key) && 'A' <= usual[0] <= 'Z'
    ensures Capitalised(usual, key)
  {
  }

  lemma InterfaceKeysCapitalised(key: string)
    requires UsualInterfaceKey(key) != key
    ensures Capitalised(UsualInterfaceKey(key), key)
  {
    ParserKeys();
    LongInterfaceKeys();
    ShortInterfaceKeys();
    Capital("PrivateKey", "privatekey");
    Capital("ListenPort", "listenport");
    Capital("Address", "address");
    Capital("DNS", "dns");
    Capital("MTU", "mtu");
    Capital("FwMark", "fwmark");
  }

  lemma PeerKeysCapitalised(key: string)
    requires UsualPeerKey(key) != key
    ensures Capitalised(UsualPeerKey(key), key)
  {
    ParserPeerKeys();
    LongPeerKeys();
    ShortPeerKeys();
    KeepaliveKey();
    Capital("PublicKey", "publickey");
    Capital("PresharedKey", "presharedkey");
    Capital("Endpoint", "endpoint");
    Capital("AllowedIPs", "allowedips");
    Capital("PersistentKeepalive", "persistentkeepalive");
  }

  lemma ObfuscationKeysCapitalised(key: string)
    requires UsualObfuscationKey(key) != key
    ensures Capitalised(UsualObfuscationKey(key), key)
  {
  }

  /** A spelling that is capitalised is no key of the next table. */
  lemma CapitalsStay(usual: string)
    requires usual != "" && 'A' <= usual[0] <= 'Z'
    ensures UsualPeerKey(usual) == usual && UsualObfuscationKey(usual) == usual
  {
  }

  lemma KeysCapitalised(key: string)
    requires UsualKey(key) != key
    ensures Capitalised(UsualKey(key), key)
  {
    if UsualInterfaceKey(key) != key {
      InterfaceKeysCapitalised(key);
      CapitalsStay(UsualInterfaceKey(key));
    } else if UsualPeerKey(key) != key {
      PeerKeysCapitalised(key);
      CapitalsStay(UsualPeerKey(key));
    } else {
      ObfuscationKeysCapitalised(key);
    }
  }

  lemma {:induction false} SameSize(a: string, b: string)
    requires SameLetters(a, b)
    ensures Size(a) == Size(b)
  {
    if a != "" {
      SameLowered(a[|a| - 1], b[|b| - 1]);
      SameSize(a[..|a| - 1], b[..|b| - 1]);
    }
  }

  lemma UsualHeader(usual: string, name: string)
    requires SameLetters(usual, name) && Trimmed(usual) && Trimmed(name) && usual != ""
    ensures SameLine(Header(usual), Header(name)) && SameLetters(Header(usual), Header(name))
  {
    BracketsRead(usual);
    BracketsRead(name);
  }

  lemma BracketsRead(name: string)
    requires Trimmed(name)
    ensures Bracketed(Header(name)) && NameOf(Header(name)) == name
  {
    TrimTrims(Header(name));
    TrimTrims(name);
    assert Header(name)[1..|Header(name)| - 1] == name;
  }

  lemma UsualEntry(pad: string, usual: string, key: string, val: string)
    requires AllSpace(pad) && Capitalised(usual, key)
    ensures SameLine(usual + pad + "=" + pad + val, key + "=" + val)
  {
    var line := usual + pad + "=" + pad + val;
    CapitalisedShape(usual, key);
    NoEqualsInSpace(pad);
    assert line == (usual + pad) + "=" + (pad + val);
    SplitAtEquals(usual + pad, pad + val);
    SplitAtEquals(key, val);
    assert "" + usual + pad == usual + pad && pad + val + "" == pad + val;
    TrimOfPadded("", usual, pad);
    TrimOfMore(pad, val, "");
    TrimTrims(key);
    EntryShape(line);
  }

  lemma UnpaddedSize(usual: string, key: string, val: string)
    requires SameLetters(usual, key)
    ensures Size(usual + "" + "=" + "" + val) == Size(key + "=" + val)
  {
    assert usual + "" + "=" + "" + val == usual + ("=" + val) && key + "=" + val == key + ("=" + val);
    SizeOfSum(usual, "=" + val);
    SizeOfSum(key, "=" + val);
    SameSize(usual, key);
  }

  /** A spelling of a line: read alike, with no newline in it, and as long as the line without padding. */
  predicate Respelled(pad: string, usual: string, line: string) {
    SameLine(usual, line) && (pad == "" ==> Size(usual) == Size(line)) && ('\n' !in line ==> '\n' !in usual)
  }

  lemma UsualHeaderLine(pad: string, usual: string, name: string)
    requires SameLetters(usual, name) && KeyName(name)
    ensures Respelled(pad, Header(usual), Header(name))
  {
    forall i | 0 <= i < |name| ensures !IsSpace(usual[i]) && usual[i] != '\n' {
      SameLowered(usual[i], name[i]);
    }
    UsualHeader(usual, name);
    SameSize(Header(usual), Header(name));
  }

  lemma HeaderLetters()
    ensures SameLetters("Interface", "interface") && KeyName("interface")
    ensures SameLetters("Peer", "peer") && KeyName("peer")
  {
  }

  lemma UsualHeaderLines(pad: string)
    ensures Respelled(pad, Header("Interface"), Header("interface")) && Respelled(pad, Header("Peer"), Header("peer"))
  {
    HeaderLetters();
    UsualHeaderLine(pad, "Interface", "interface");
    UsualHeaderLine(pad, "Peer", "peer");
  }

  lemma UsualEntryLine(pad: string, line: string)
    requires AllSpace(pad) && '\n' !in pad && SplitPair(line).Some?
    requires UsualKey(SplitPair(line).value.0) != SplitPair(line).value.0
    ensures var p := SplitPair(line).value; Respelled(pad, UsualKey(p.0) + pad + "=" + pad + p.1, line)
  {
    var p := SplitPair(line).value;
    assert line == p.0 + "=" + p.1;
    KeysCapitalised(p.0);
    CapitalisedShape(UsualKey(p.0), p.0);
    UsualEntry(pad, UsualKey(p.0), p.0, p.1);
    UnpaddedSize(UsualKey(p.0), p.0, p.1);
  }

  lemma UsualLineIsSame(pad: string, line: string)
    requires AllSpace(pad) && '\n' !in pad
    ensures Respelled(pad, UsualLine(pad, line), line)
  {
    UsualHeaderLines(pad);
    if SplitPair(line).Some? && UsualKey(SplitPair(line).value.0) != SplitPair(line).value.0 {
      UsualEntryLine(pad, line);
    }
  }

  lemma {:induction false} UsualTextIsSame(pad: string, lines: seq<string>)
    requires AllSpace(pad) && '\n' !in pad
    requires forall l :: l in lines ==> '\n' !in l && Size(l) < MAX_LINE && Size(UsualLine(pad, l)) < MAX_LINE
    ensures SameText(UsualText(pad, lines), Unlines(lines))
  {
    if lines != [] {
      UsualLineIsSame(pad, lines[0]);
      FirstOfLines(UsualLine(pad, lines[0]), UsualText(pad, lines[1..]));
      FirstOfLines(lines[0], Unlines(lines[1..]));
      UsualTextIsSame(pad, lines[1..]);
    }
  }

  /**
   * Every well-formed configuration, written with the usual [Interface], [Peer], PrivateKey,
   * AllowedIPs and so on, is read back as itself. With padding around the equals signs, `Key = value`,
   * so is every one whose longest line then still fits the scanner's buffer.
   */
  lemma UsualSpellingReads(c: Config, pad: string)
    requires WellFormed(c) && AllSpace(pad) && '\n' !in pad
    requires pad == "" || forall l :: l in ConfigLines(c) ==> Size(UsualLine(pad, l)) < MAX_LINE
    ensures Parsed(UsualText(pad, ConfigLines(c))) == Ok(c)
  {
    var lines := ConfigLines(c);
    PlainText(c);
    ScannedLinesFit(Unlines(lines));
    forall l | l in lines
      ensures '\n' !in l && Size(l) < MAX_LINE && Size(UsualLine(pad, l)) < MAX_LINE
    {
      var i :| 0 <= i < |lines| && lines[i] == l;
      UsualLineIsSame(pad, l);
    }
    UsualTextIsSame(pad, lines);
    SpellingDoesNotMatter(UsualText(pad, lines), Unlines(lines));
    CanonicalText(c);
  }

  // ---- Lists ----

  /** A list without a comma has one item, or none if it is white space. */
  lemma OneItem(s: string)
    requires ',' !in s
    ensures SplitList(s) == if Trim(s) == "" then [] else [Trim(s)]
  {
    assert IndexOf(s, ',').None?;
  }

  lemma FirstItem(item: string, rest: string, list: string)
    requires ',' !in item && list == item + "," + rest
    ensures SplitList(list) == SplitList(item) + SplitList(rest)
  {
    IndexOfFirst(item, ',', rest);
    assert list == item + [','] + rest;
    assert list[..|item|] == item && list[|item| + 1..] == rest;
    OneItem(item);
  }

  /** Two lists with a comma between them are one list, with all items of the first and then of the second. */
  lemma {:induction false} ListsJoined(a: string, b: string, list: string)
    requires list == a + "," + b
    ensures SplitList(list) == SplitList(a) + SplitList(b)
    decreases |a|, 1
  {
    var i := IndexOf(a, ',');
    if i.None? {
      FirstItem(a, b, list);
    } else {
      ListsJoinedLater(a, b, list, a[..i.value], a[i.value + 1..]);
    }
  }

  lemma {:induction false} ListsJoinedLater(a: string, b: string, list: string, item: string, rest: string)
    requires list == a + "," + b && ',' !in item && a == item + "," + rest
    ensures SplitList(list) == SplitList(a) + SplitList(b)
    decreases |a|, 0
  {
    var more := rest + "," + b;
    assert list == item + "," + more;
    ListsJoined(rest, b, more);
    FirstItem(item, rest, a);
    FirstItem(item, more, list);
    Concatenated(SplitList(item), SplitList(rest), SplitList(b));
  }

  lemma Concatenated(a: seq<string>, b: seq<string>, c: seq<string>)
    ensures a + (b + c) == a + b + c
  {
  }

  // ---- Blank lines and comments ----

  /** A text that is made of whole lines. */
  predicate WholeLines(text: string) {
    text == "" || text[|text| - 1] == '\n'
  }

  lemma FirstOfWhole(text: string, rest: string)
    requires text != "" && WholeLines(text)
    ensures FirstLine(text + rest) == FirstLine(text) && AfterLine(text + rest) == AfterLine(text) + rest
    ensures WholeLines(AfterLine(text))
  {
    var i := IndexOf(text, '\n').value;
    var line, after := text[..i], text[i + 1..];
    assert text == line + "\n" + after;
    assert text + rest == line + "\n" + (after + rest);
    FirstOfLines(line, after + rest);
    FirstOfLines(line, after);
    assert after != "" ==> after[|after| - 1] == text[|text| - 1];
  }

  lemma ScannedNext(text: string)
    requires text != ""
    ensures Scanned(text) ==
      if Size(FirstLine(text)) >= MAX_LINE then [] else [DropCr(FirstLine(text))] + Scanned(AfterLine(text))
    ensures Scannable(text) <==> Size(FirstLine(text)) < MAX_LINE && Scannable(AfterLine(text))
  {
  }

  lemma {:induction false} ScannedOfSum(text: string, rest: string)
    requires WholeLines(text)
    ensures Scanned(text + rest) == if Scannable(text) then Scanned(text) + Scanned(rest) else Scanned(text)
    ensures Scannable(text + rest) <==> Scannable(text) && Scannable(rest)
    decreases |text|
  {
    if text == "" {
      assert text + rest == rest && [] + Scanned(rest) == Scanned(rest);
    } else {
      FirstOfWhole(text, rest);
      ScannedNext(text);
      ScannedNext(text + rest);
      ScannedOfSum(AfterLine(text), rest);
      Concatenated([DropCr(FirstLine(text))], Scanned(AfterLine(text)), Scanned(rest));
    }
  }

  /** A line of white space only, or one that starts with a number sign. */
  predicate SaysNothing(line: string) {
    Trim(line) == "" || Trim(line)[0] == '#'
  }

  /** A blank line or a comment, between any two lines of any text, changes nothing. */
  lemma BlankDoesNotMatter(text: string, blank: string, rest: string)
    requires WholeLines(text) && '\n' !in blank && Size(blank) < MAX_LINE && SaysNothing(blank)
    ensures Parsed(text + (blank + "\n" + rest)) == Parsed(text + rest)
  {
    var more := blank + "\n" + rest;
    ScannedOfSum(text, more);
    ScannedOfSum(text, rest);
    FirstOfLines(blank, rest);
    ScannedNext(more);
    BlankInside(Scanned(text), blank, Scanned(rest));
  }

  lemma BlankInside(before: seq<string>, blank: string, after: seq<string>)
    requires SaysNothing(blank)
    ensures ReadLines(START, before + ([DropCr(blank)] + after)) == ReadLines(START, before + after)
  {
    ReadLinesOfSum(START, before, [DropCr(blank)] + after);
    ReadLinesOfSum(START, before, after);
    if ReadLines(START, before).Ok? {
      BlankIsSkipped(ReadLines(START, before).value, blank, after);
    }
  }

  lemma BlankIsSkipped(r: Reading, blank: string, lines: seq<string>)
    requires SaysNothing(blank)
    ensures ReadLines(r, [DropCr(blank)] + lines) == ReadLines(r, lines)
  {
    TrimOfCr(blank);
    assert ([DropCr(blank)] + lines)[1..] == lines;
  }

  // ---- One line more ----

  lemma OneWholeLine(line: string)
    requires '\n' !in line && Size(line) < MAX_LINE
    ensures Scanned(line + "\n") == [DropCr(line)] && Scannable(line + "\n")
  {
    assert line + "\n" == line + "\n" + "";
    FirstOfLines(line, "");
    ScannedNext(line + "\n");
  }

  lemma ScannedOneMore(text: string, line: string)
    requires WholeLines(text) && Scannable(text) && '\n' !in line && Size(line) < MAX_LINE
    ensures Scanned(text + (line + "\n")) == Lines(text) + [DropCr(line)] && Scannable(text + (line + "\n"))
  {
    ScannableIsScanned(text);
    OneWholeLine(line);
    ScannedOfSum(text, line + "\n");
  }

  lemma ReadOneMore(lines: seq<string>, line: string)
    requires ReadLines(START, lines).Ok?
    ensures ReadLines(START, lines + [DropCr(line)]) ==
      Meaning(Reading(ReadLines(START, lines).value.cfg, SectionAt(lines)), Classify(line))
  {
    SectionFollows(lines);
    ReadLinesOfSum(START, lines, [DropCr(line)]);
    LastLine(ReadLines(START, lines).value, DropCr(line));
    ClassifyOfCr(line);
  }

  /**
   * A line at the end of an accepted text means what it means by itself, in the section whose header
   * stands last before it.
   */
  lemma OneLineMore(text: string, line: string)
    requires WholeLines(text) && Parsed(text).Ok? && '\n' !in line && Size(line) < MAX_LINE
    ensures Parsed(text + (line + "\n")) ==
      match Meaning(Reading(Parsed(text).value, SectionAt(Lines(text))), Classify(line))
      case Ok(r) => Ok(r.cfg)
      case Err(e) => Err(e)
  {
    ScannableIsScanned(text);
    ScannedOneMore(text, line);
    ReadOneMore(Lines(text), line);
  }

  /** A text starts from nothing, and a [Peer] header, in any spelling, adds a peer with nothing in it. */
  lemma EmptyText()
    ensures Parsed("") == Ok(Config("", [], [], 0, 0, 0, map[], false, []))
  {
  }

  lemma PeerHeaderMeans(r: Reading, line: string)
    requires Bracketed(line) && SameLetters(NameOf(line), "peer")
    ensures Meaning(r, Classify(line)) ==
      Ok(Reading(r.cfg.(peers := r.cfg.peers + [Peer("", "", "", [], 0)]), "peer"))
  {
    LowerForgetsCase(NameOf(line), "peer");
    HeaderLetters();
    LowerOfName("peer");
  }

  lemma PeerHeaderLine(text: string, line: string)
    requires WholeLines(text) && Parsed(text).Ok? && '\n' !in line && Size(line) < MAX_LINE
    requires Bracketed(line) && SameLetters(NameOf(line), "peer")
    ensures var c := Parsed(text).value;
      Parsed(text + (line + "\n")) == Ok(c.(peers := c.peers + [Peer("", "", "", [], 0)]))
  {
    OneLineMore(text, line);
    PeerHeaderMeans(Reading(Parsed(text).value, SectionAt(Lines(text))), line);
  }

  // ---- Marks in hexadecimal ----

  function HexDigit(d: nat): char
    requires d < 16
  {
    "0123456789abcdef"[d]
  }

  /** The hexadecimal numeral of a natural number. */
  function Hexadecimal(n: nat): (s: string)
    ensures s != ""
  {
    if n < 16 then [HexDigit(n)] else Hexadecimal(n / 16) + [HexDigit(n % 16)]
  }

  lemma HexDigitIsRead(c: char, d: nat)
    requires d < 16 && SameLetter(c, HexDigit(d))
    ensures DigitValue(c, 16) == Some(d) && !IsSpace(c) && c != '\n' && c != '\r' && c as int < 0x80
  {
  }

  predicate HexText(h: string) {
    forall i :: 0 <= i < |h| ==> !IsSpace(h[i]) && h[i] != '\n' && h[i] as int < 0x80
  }

  /** The last digit of a numeral and the digits before it. */
  lemma LastHexDigit(n: nat, h: string)
    requires SameLetters(h, Hexadecimal(n))
    ensures h != "" && DigitValue(h[|h| - 1], 16) == Some(n % 16) && HexText([h[|h| - 1]])
    ensures if n < 16 then |h| == 1 else SameLetters(h[..|h| - 1], Hexadecimal(n / 16))
  {
    HexDigitIsRead(h[|h| - 1], n % 16);
    if n >= 16 {
      assert Hexadecimal(n)[..|h| - 1] == Hexadecimal(n / 16);
    }
  }

  lemma {:induction false} HexadecimalIsText(n: nat, h: string)
    requires SameLetters(h, Hexadecimal(n))
    ensures HexText(h)
    decreases n
  {
    LastHexDigit(n, h);
    assert h == h[..|h| - 1] + [h[|h| - 1]];
    if n >= 16 {
      HexadecimalIsText(n / 16, h[..|h| - 1]);
    }
  }

  lemma NumeralStep(front: string, last: char, n: nat, d: nat)
    requires DigitValue(last, 16) == Some(d)
    requires if front == "" then n == 0 else Numeral(front, 16) == Some(n)
    ensures Numeral(front + [last], 16) == Some(n * 16 + d)
  {
    assert (front + [last])[..|front|] == front;
  }

  lemma {:induction false} NumeralOfHexadecimal(n: nat, h: string)
    requires SameLetters(h, Hexadecimal(n))
    ensures Numeral(h, 16) == Some(n)
    decreases n
  {
    LastHexDigit(n, h);
    var front, last := h[..|h| - 1], h[|h| - 1];
    if n >= 16 {
      NumeralOfHexadecimal(n / 16, front);
    }
    NumeralStep(front, last, n / 16, n % 16);
    assert h == front + [last];
  }

  function Pow16(k: nat): nat {
    if k == 0 then 1 else 16 * Pow16(k - 1)
  }

  lemma {:induction false} HexadecimalLength(n: nat, k: nat)
    requires k > 0 && n < Pow16(k)
    ensures |Hexadecimal(n)| <= k
  {
    if n >= 16 {
      assert k > 1 && n / 16 < Pow16(k - 1);
      HexadecimalLength(n / 16, k - 1);
    }
  }

  /** A numeral after 0x or 0X, in either case. */
  predicate HexMark(val: string, n: nat) {
    |val| >= 3 && val[0] == '0' && (val[1] == 'x' || val[1] == 'X') && SameLetters(val[2..], Hexadecimal(n))
  }

  /** Such a mark is the number that its hexadecimal digits say; 32 bits is the limit. */
  lemma HexMarkIsRead(val: string, n: nat)
    requires HexMark(val, n)
    ensures ParseFwMark(val) == if n < 4294967296 then Ok(n) else Err(InvalidNumber("FwMark", val))
  {
    NumeralOfHexadecimal(n, val[2..]);
    HexadecimalIsText(n, val[2..]);
    assert val[|val| - 1] == val[2..][|val| - 3];
    TrimTrims(val);
  }

  /** In the text: a `FwMark = 0x..` line at the end of an [Interface] section sets the mark and nothing else. */
  lemma HexMarkLine(text: string, val: string, n: nat)
    requires WholeLines(text) && Parsed(text).Ok? && SectionAt(Lines(text)) == "interface"
    requires HexMark(val, n) && n < 4294967296
    ensures Parsed(text + ("FwMark = " + val + "\n")) == Ok(Parsed(text).value.(fwMark := n))
  {
    HexMarkFits(val, n);
    MarkLineIsRead("FwMark = " + val, val);
    HexMarkIsRead(val, n);
    MarkLineMore(text, "FwMark = " + val, val, n);
  }

  lemma MarkLineMore(text: string, line: string, val: string, n: nat)
    requires WholeLines(text) && Parsed(text).Ok? && SectionAt(Lines(text)) == "interface"
    requires '\n' !in line && Size(line) < MAX_LINE && Classify(line) == Entry("FwMark", val)
    requires ParseFwMark(val) == Ok(n)
    ensures Parsed(text + (line + "\n")) == Ok(Parsed(text).value.(fwMark := n))
  {
    OneLineMore(text, line);
    MarkIsSet(Parsed(text).value, val, n);
  }

  lemma MarkIsSet(c: Config, val: string, n: nat)
    requires ParseFwMark(val) == Ok(n)
    ensures EntryMeaning(Reading(c, "interface"), "FwMark", val) == Ok(Reading(c.(fwMark := n), "interface"))
  {
    ShortInterfaceKeys();
    LowerForgetsCase("FwMark", "fwmark");
    ParserKeys();
    LowerOfName("fwmark");
  }

  lemma HexMarkLength(val: string, n: nat)
    requires HexMark(val, n) && n < 4294967296
    ensures |val| <= 10
  {
    assert Pow16(8) == 4294967296;
    HexadecimalLength(n, 8);
  }

  lemma HexMarkChars(val: string, n: nat)
    requires HexMark(val, n)
    ensures '\n' !in val && !IsSpace(val[|val| - 1])
  {
    HexadecimalIsText(n, val[2..]);
    forall i | 2 <= i < |val| ensures val[i] != '\n' && !IsSpace(val[i]) {
      assert val[i] == val[2..][i - 2];
    }
  }

  lemma HexMarkFits(val: string, n: nat)
    requires HexMark(val, n) && n < 4294967296
    ensures '\n' !in "FwMark = " + val && Size("FwMark = " + val) < MAX_LINE && !IsSpace(val[|val| - 1])
  {
    HexMarkLength(val, n);
    HexMarkChars(val, n);
  }

  lemma MarkLineIsRead(line: string, val: string)
    requires line == "FwMark = " + val && val != "" && val[0] == '0' && !IsSpace(val[|val| - 1])
    ensures Classify(line) == Entry("FwMark", val)
  {
    assert line == "FwMark " + "=" + (" " + val);
    SplitAtEquals("FwMark ", " " + val);
    assert "" + "FwMark" + " " == "FwMark " && " " + val + "" == " " + val;
    TrimOfPadded("", "FwMark", " ");
    TrimOfPadded(" ", val, "");
    EntryShape(line);
  }
}
