/** Field masking: pkg/overrides/jsonpointer.go. The ignore-fields annotation of a live object lists
    JSON pointers (RFC 6901); the subtree at each is copied from live into desired, one after another. */
module JsonPointer {
  import opened JsonTree

  const ANNOTATION_IGNORE_FIELDS := "platform.kubevirt.io/ignore-fields"

  // Pointer syntax. -----------------------------------------------------------------------------

  /** strings.Split with a one-character separator. */
  function Split(s: string, sep: char): (parts: seq<string>)
    ensures |parts| > 0
  {
    if s == "" then [""]
    else if s[0] == sep then [""] + Split(s[1..], sep)
    else
      var rest := Split(s[1..], sep);
      [[s[0]] + rest[0]] + rest[1..]
  }

  /** strings.ReplaceAll of the two characters `~`, `code` by the one character `sub`. */
  function ReplaceEscape(s: string, code: char, sub: char): string {
    if |s| < 2 then s
    else if s[0] == '~' && s[1] == code then [sub] + ReplaceEscape(s[2..], code, sub)
    else [s[0]] + ReplaceEscape(s[1..], code, sub)
  }

  function Unescape(segment: string): string {
    ReplaceEscape(ReplaceEscape(segment, '1', '/'), '0', '~')
  }

  function Tokens(pointer: string): (tokens: Path)
    requires pointer != ""
    ensures tokens != []
  {
    var segments := Split(pointer[1..], '/');
    seq(|segments|, i requires 0 <= i < |segments| => Unescape(segments[i]))
  }

  method DecodePointer(pointer: string) returns (path: Path)
    requires pointer != ""
    ensures path == Tokens(pointer)
  {
    ghost var segments := Split(pointer[1..], '/');
    path := Split(pointer[1..], '/');
    for i := 0 to |path|
      invariant |path| == |segments|
      invariant forall k :: 0 <= k < i ==> path[k] == Unescape(segments[k])
      invariant forall k :: i <= k < |path| ==> path[k] == segments[k]
    {
      var seg := ReplaceEscape(path[i], '1', '/');
      path := path[i := ReplaceEscape(seg, '0', '~')];
    }
  }

  /** The pointer that sections 3 and 4 of RFC 6901 assign to a list of reference tokens. */
  function Escape(token: string): string {
    if token == "" then ""
    else (if token[0] == '~' then "~0" else if token[0] == '/' then "~1" else [token[0]])
         + Escape(token[1..])
  }

  function EncodePointer(tokens: Path): string
    requires tokens != []
  {
    if |tokens| == 1 then "/" + Escape(tokens[0])
    else "/" + (Escape(tokens[0]) + EncodePointer(tokens[1..]))
  }

  /** A token in which only the tilde is escaped. */
  function EscapeTilde(token: string): string {
    if token == "" then ""
    else (if token[0] == '~' then "~0" else [token[0]]) + EscapeTilde(token[1..])
  }

  lemma ReplaceEscapeStep(c: char, s: string, code: char, sub: char)
    requires c != '~' || (s != "" && s[0] != code)
    ensures ReplaceEscape([c] + s, code, sub) == [c] + ReplaceEscape(s, code, sub)
  {
    assert ([c] + s)[1..] == s;
    if s == "" { assert [c] + s == [c]; }
  }

  lemma ReplaceEscapeHit(s: string, code: char, sub: char)
    ensures ReplaceEscape(['~', code] + s, code, sub) == [sub] + ReplaceEscape(s, code, sub)
  {
    assert (['~', code] + s)[2..] == s;
  }

  lemma ReplaceEscapeMiss(s: string, other: char, code: char, sub: char)
    requires other != code && other != '~'
    ensures ReplaceEscape(['~', other] + s, code, sub) == ['~', other] + ReplaceEscape(s, code, sub)
  {
    assert ['~', other] + s == ['~'] + ([other] + s);
    ReplaceEscapeStep('~', [other] + s, code, sub);
    ReplaceEscapeStep(other, s, code, sub);
    assert ['~'] + ([other] + ReplaceEscape(s, code, sub)) == ['~', other] + ReplaceEscape(s, code, sub);
  }

  lemma {:induction false} SlashFirst(t: string)
    ensures ReplaceEscape(Escape(t), '1', '/') == EscapeTilde(t)
  {
    if t != "" {
      SlashFirst(t[1..]);
      var rest := Escape(t[1..]);
      if t[0] == '~' {
        ReplaceEscapeMiss(rest, '0', '1', '/');
      } else if t[0] == '/' {
        ReplaceEscapeHit(rest, '1', '/');
      } else {
        ReplaceEscapeStep(t[0], rest, '1', '/');
      }
    }
  }

  lemma {:induction false} TildeSecond(t: string)
    ensures ReplaceEscape(EscapeTilde(t), '0', '~') == t
  {
    if t != "" {
      TildeSecond(t[1..]);
      var rest := EscapeTilde(t[1..]);
      if t[0] == '~' {
        ReplaceEscapeHit(rest, '0', '~');
      } else {
        ReplaceEscapeStep(t[0], rest, '0', '~');
      }
    }
  }

  lemma {:induction false} EscapeHasNoSlash(t: string)
    ensures '/' !in Escape(t)
  {
    if t != "" { EscapeHasNoSlash(t[1..]); }
  }

  lemma {:induction false} SplitAfterSegment(segment: string, rest: string, sep: char)
    requires sep !in segment
    ensures Split(segment, sep) == [segment]
    ensures Split(segment + [sep] + rest, sep) == [segment] + Split(rest, sep)
  {
    if segment == "" {
      assert segment + [sep] + rest == [sep] + rest;
      assert ([sep] + rest)[1..] == rest;
    } else {
      SplitAfterSegment(segment[1..], rest, sep);
      assert (segment + [sep] + rest)[1..] == segment[1..] + [sep] + rest;
      assert [segment[0]] + segment[1..] == segment;
    }
  }

  /** What a split leaves has no separator, and joins to what was split. */
  lemma {:induction false} SplitJoins(s: string, sep: char)
    ensures forall part <- Split(s, sep) :: sep !in part
    ensures |Split(s, sep)| == 2 ==> s == Split(s, sep)[0] + [sep] + Split(s, sep)[1]
    ensures |Split(s, sep)| == 1 ==> s == Split(s, sep)[0]
  {
    if s != "" {
      SplitJoins(s[1..], sep);
      assert s == [s[0]] + s[1..];
    }
  }

  lemma UnescapeEscape(t: string)
    ensures Unescape(Escape(t)) == t
  {
    SlashFirst(t);
    TildeSecond(t);
  }

  lemma TokensOfSegments(segment: string, rest: string)
    requires '/' !in segment
    ensures Tokens("/" + segment) == [Unescape(segment)]
    ensures Tokens("/" + (segment + ("/" + rest))) == [Unescape(segment)] + Tokens("/" + rest)
  {
    SplitAfterSegment(segment, rest, '/');
    assert ("/" + segment)[1..] == segment && ("/" + rest)[1..] == rest;
    assert ("/" + (segment + ("/" + rest)))[1..] == segment + "/" + rest;
  }

  /** Decoding a pointer gives back the tokens it was made from. */
  lemma {:induction false} PointerRoundTrip(tokens: Path)
    requires tokens != []
    ensures Tokens(EncodePointer(tokens)) == tokens
  {
    var t := tokens[0];
    var segment := Escape(t);
    assert '/' !in segment && Unescape(segment) == t by { EscapeHasNoSlash(t); UnescapeEscape(t); }
    if |tokens| == 1 {
      TokensOfSegments(segment, "");
    } else {
      PointerRoundTrip(tokens[1..]);
      var body := EncodePointer(tokens[1..])[1..];
      assert EncodePointer(tokens[1..]) == "/" + body;
      TokensOfSegments(segment, body);
    }
  }

  /** The order of the two replacements matters: swapped, the token `~1` does not survive. */
  lemma SwappedUnescapeLosesTokens()
    ensures ReplaceEscape(ReplaceEscape(Escape("~1"), '0', '~'), '1', '/') == "/"
    ensures Unescape(Escape("~1")) == "~1"
  {
    assert Escape("~1") == "~01" by { assert "~1"[1..] == "1" && "1"[1..] == ""; }
    assert "~01"[2..] == "1" && ReplaceEscape("~01", '0', '~') == "~1";
    assert "~1"[2..] == "" && ReplaceEscape("~1", '1', '/') == "/";
    SlashFirst("~1");
    TildeSecond("~1");
  }

  // The annotation. -----------------------------------------------------------------------------

  predicate IsSpace(c: char) {
    || c in {' ', '\t', '\n', '\r', '\U{b}', '\U{c}', '\U{85}', '\U{a0}', '\U{1680}'}
    || '\U{2000}' <= c <= '\U{200a}'
    || c in {'\U{2028}', '\U{2029}', '\U{202f}', '\U{205f}', '\U{3000}'}
  }

  function TrimSpace(s: string): string {
    if s == "" then ""
    else if IsSpace(s[0]) then TrimSpace(s[1..])
    else if IsSpace(s[|s| - 1]) then TrimSpace(s[..|s| - 1])
    else s
  }

  function TrimmedParts(parts: seq<string>): (r: seq<string>)
    ensures "" !in r
  {
    if parts == [] then []
    else
      var last := TrimSpace(parts[|parts| - 1]);
      TrimmedParts(parts[..|parts| - 1]) + (if last == "" then [] else [last])
  }

  method ParsePointers(pointers: string) returns (result: seq<string>)
    ensures result == TrimmedParts(Split(pointers, ','))
  {
    var parts := Split(pointers, ',');
    result := [];
    for i := 0 to |parts|
      invariant result == TrimmedParts(parts[..i])
    {
      var trimmed := TrimSpace(parts[i]);
      if trimmed != "" {
        result := result + [trimmed];
      }
      TrimmedStep(parts, i);
    }
    assert parts[..|parts|] == parts;
  }

  lemma TrimmedStep(parts: seq<string>, i: nat)
    requires i < |parts|
    ensures var last := TrimSpace(parts[i]);
            TrimmedParts(parts[..i + 1]) == TrimmedParts(parts[..i]) + (if last == "" then [] else [last])
  {
    assert parts[..i + 1][..i] == parts[..i];
  }

  function IgnoredPointers(live: Object): (r: seq<string>)
    ensures "" !in r
  {
    if ANNOTATION_IGNORE_FIELDS in Annotations(live)
    then TrimmedParts(Split(Annotations(live)[ANNOTATION_IGNORE_FIELDS], ','))
    else []
  }

  /** One item of a listing: a pointer, or nothing, between blanks. */
  datatype Piece = Piece(left: string, core: string, right: string) {
    function Text(): string { left + core + right }
  }

  predicate Blank(s: string) { forall c <- s :: IsSpace(c) }

  predicate Trimmed(core: string) { core != "" ==> !IsSpace(core[0]) && !IsSpace(core[|core| - 1]) }

  predicate WellPieced(p: Piece) { Blank(p.left) && Blank(p.right) && Trimmed(p.core) && ',' !in p.core }

  /** The items separated by commas. */
  function Listing(pieces: seq<Piece>): string
    requires pieces != []
  {
    if |pieces| == 1 then pieces[0].Text() else pieces[0].Text() + [','] + Listing(pieces[1..])
  }

  /** The pointers among them, in order. */
  function Cores(pieces: seq<Piece>): seq<string> {
    if pieces == [] then []
    else
      var last := pieces[|pieces| - 1].core;
      Cores(pieces[..|pieces| - 1]) + if last == "" then [] else [last]
  }

  lemma TextStep(p: Piece)
    ensures p.left != "" ==> p.Text() == [p.left[0]] + p.(left := p.left[1..]).Text()
    ensures p.left == p.core == "" && p.right != "" ==> p.Text() == [p.right[0]] + p.(right := p.right[1..]).Text()
    ensures p.right != "" ==> p.Text() == p.(right := p.right[..|p.right| - 1]).Text() + [p.right[|p.right| - 1]]
  {}

  lemma {:induction false} TrimPiece(p: Piece)
    requires Blank(p.left) && Blank(p.right) && Trimmed(p.core)
    ensures TrimSpace(p.Text()) == p.core
    decreases |p.left| + |p.right|
  {
    TextStep(p);
    if p.left != "" {
      TrimPiece(p.(left := p.left[1..]));
    } else if p.core == "" && p.right != "" {
      TrimPiece(p.(right := p.right[1..]));
    } else if p.right != "" {
      assert p.Text()[0] == p.core[0];
      TrimPiece(p.(right := p.right[..|p.right| - 1]));
    } else {
      assert p.Text() == p.core;
    }
  }

  lemma PieceHasNoComma(p: Piece)
    requires WellPieced(p)
    ensures ',' !in p.Text()
  {
    assert !IsSpace(',');
    assert ',' !in p.left && ',' !in p.right;
  }

  lemma {:induction false} SplitListing(pieces: seq<Piece>)
    requires pieces != [] && forall p <- pieces :: WellPieced(p)
    ensures Split(Listing(pieces), ',') == Texts(pieces)
  {
    PieceHasNoComma(pieces[0]);
    if |pieces| == 1 {
      SplitAfterSegment(pieces[0].Text(), "", ',');
    } else {
      SplitListing(pieces[1..]);
      SplitAfterSegment(pieces[0].Text(), Listing(pieces[1..]), ',');
      assert Texts(pieces) == [pieces[0].Text()] + Texts(pieces[1..]);
    }
  }

  function Texts(pieces: seq<Piece>): seq<string> {
    seq(|pieces|, i requires 0 <= i < |pieces| => pieces[i].Text())
  }

  lemma {:induction false} TrimTexts(pieces: seq<Piece>)
    requires forall p <- pieces :: WellPieced(p)
    ensures TrimmedParts(Texts(pieces)) == Cores(pieces)
  {
    if pieces != [] {
      var n := |pieces| - 1;
      TrimTexts(pieces[..n]);
      assert pieces[n] in pieces;
      TrimPiece(pieces[n]);
      assert Texts(pieces)[..n] == Texts(pieces[..n]);
    }
  }

  /** However pointers are listed, with commas between them and blanks around them, they are read back. */
  lemma ListingReadsBack(live: Object, pieces: seq<Piece>)
    requires pieces != [] && forall p <- pieces :: WellPieced(p)
    requires HasAnnotation(live, ANNOTATION_IGNORE_FIELDS, Listing(pieces))
    ensures IgnoredPointers(live) == Cores(pieces)
  {
    SplitListing(pieces);
    TrimTexts(pieces);
  }

  lemma {:induction false} PieceOf(s: string) returns (p: Piece)
    requires ',' !in s
    ensures WellPieced(p) && p.Text() == s
    decreases |s|
  {
    if s == "" {
      p := Piece("", "", "");
    } else if IsSpace(s[0]) {
      var q := PieceOf(s[1..]);
      p := q.(left := [s[0]] + q.left);
      assert p.Text() == [s[0]] + q.Text();
    } else if IsSpace(s[|s| - 1]) {
      var q := PieceOf(s[..|s| - 1]);
      p := q.(right := q.right + [s[|s| - 1]]);
      assert p.Text() == q.Text() + [s[|s| - 1]];
    } else {
      p := Piece("", s, "");
    }
  }

  /** And every text is such a listing. */
  lemma {:induction false} TextIsListing(text: string) returns (pieces: seq<Piece>)
    ensures pieces != [] && (forall p <- pieces :: WellPieced(p)) && Listing(pieces) == text
    decreases |text|
  {
    var i := FirstComma(text);
    var first := PieceOf(text[..i]);
    if i < |text| {
      var rest := TextIsListing(text[i + 1..]);
      pieces := [first] + rest;
      assert pieces[1..] == rest && text == text[..i] + [','] + text[i + 1..];
    } else {
      pieces := [first];
    }
  }

  lemma FirstComma(text: string) returns (i: nat)
    ensures i <= |text| && ',' !in text[..i] && (i < |text| ==> text[i] == ',')
  {
    i := 0;
    while i < |text| && text[i] != ','
      invariant i <= |text| && ',' !in text[..i]
    {
      assert text[..i + 1] == text[..i] + [text[i]];
      i := i + 1;
    }
  }

  // Masking. ------------------------------------------------------------------------------------

  function CopyField(live: Object, o: Object, pointer: string): Option<Object>
    requires pointer != ""
  {
    if pointer[0] != '/' then None
    else
      match Nested(Obj(live), Tokens(pointer))
      case Mismatch => None
      case Missing => Some(RemoveNested(o, Tokens(pointer)))
      case Found(v) => SetNested(o, Tokens(pointer), v)
  }

  function CopyFields(live: Object, o: Object, pointers: seq<string>): Option<Object>
    requires "" !in pointers
  {
    if pointers == [] then Some(o)
    else
      match CopyFields(live, o, pointers[..|pointers| - 1])
      case None => None
      case Some(x) => CopyField(live, x, pointers[|pointers| - 1])
  }

  /** The masked object, or None where the source returns an error. */
  function Mask(desired: Object, live: Object): Option<Object> {
    CopyFields(live, desired, IgnoredPointers(live))
  }

  method CopyFieldByPointer(source: Object, dest: Object, pointer: string) returns (r: Option<Object>)
    requires pointer != ""
    ensures r == CopyField(source, dest, pointer)
  {
    if pointer[0] != '/' {
      return None;
    }
    var path := DecodePointer(pointer);
    match Nested(Obj(source), path) {
      case Mismatch => return None;
      case Missing => return Some(RemoveNested(dest, path));
      case Found(value) => return SetNested(dest, path, value);
    }
  }

  /** The loop over the pointers. */
  method CopyAll(live: Object, desired: Object, pointers: seq<string>) returns (r: Option<Object>)
    requires "" !in pointers
    ensures r == CopyFields(live, desired, pointers)
  {
    var result := desired;
    for i := 0 to |pointers|
      invariant CopyFields(live, desired, pointers[..i]) == Some(result)
    {
      var next := CopyFieldByPointer(live, result, pointers[i]);
      assert pointers[..i + 1][..i] == pointers[..i];
      if next.None? {
        FailureIsFinal(live, desired, pointers, i + 1);
        return None;
      }
      result := next.value;
    }
    assert pointers[..|pointers|] == pointers;
    return Some(result);
  }

  method MaskIgnoredFields(desired: Option<Object>, live: Option<Object>) returns (r: Option<Object>)
    ensures desired.None? ==> r.None?
    ensures desired.Some? && live.None? ==> r == desired
    ensures desired.Some? && live.Some? ==> r == Mask(desired.value, live.value)
  {
    if desired.None? {
      return None;
    }
    if live.None? {
      return desired;
    }
    var annotations := Annotations(live.value);
    if ANNOTATION_IGNORE_FIELDS !in annotations {
      return desired;
    }
    var ignoreFields := annotations[ANNOTATION_IGNORE_FIELDS];
    if ignoreFields == "" {
      assert TrimmedParts(Split("", ',')) == [] by { assert [""][..0] == []; }
      return desired;
    }
    var pointers := ParsePointers(ignoreFields);
    r := CopyAll(live.value, desired.value, pointers);
  }

  lemma {:induction false} FailureIsFinal(live: Object, o: Object, pointers: seq<string>, i: nat)
    requires "" !in pointers && i <= |pointers|
    requires CopyFields(live, o, pointers[..i]).None?
    ensures CopyFields(live, o, pointers).None?
    decreases |pointers|
  {
    if i == |pointers| {
      assert pointers[..i] == pointers;
    } else {
      assert pointers[..|pointers| - 1][..i] == pointers[..i];
      FailureIsFinal(live, o, pointers[..|pointers| - 1], i);
    }
  }

  // What masking means, node by node and without any order among the pointers. ------------------

  ghost predicate Covered(pointers: seq<string>, q: Path)
    requires "" !in pointers
  {
    exists i :: 0 <= i < |pointers| && Tokens(pointers[i]) <= q
  }

  ghost predicate LeadsToLive(live: Object, pointers: seq<string>, q: Path)
    requires "" !in pointers
  {
    exists i :: 0 <= i < |pointers| && q < Tokens(pointers[i]) && Nested(Obj(live), Tokens(pointers[i])).Found?
  }

  /** At or below a pointer the live node; above one that live has, an object; elsewhere as desired. */
  ghost function MaskedNode(live: Object, desired: Object, pointers: seq<string>, q: Path): Node
    requires "" !in pointers
  {
    if Covered(pointers, q) then NodeAt(Obj(live), q)
    else if LeadsToLive(live, pointers, q) then Branch
    else NodeAt(Obj(desired), q)
  }

  lemma CopyFieldNodes(live: Object, o: Object, pointer: string, q: Path)
    requires pointer != "" && CopyField(live, o, pointer).Some?
    ensures var t := Tokens(pointer);
            NodeAt(Obj(CopyField(live, o, pointer).value), q) ==
            if t <= q then NodeAt(Obj(live), q)
            else if q < t && Nested(Obj(live), t).Found? then Branch
            else NodeAt(Obj(o), q)
  {
    var t := Tokens(pointer);
    if t <= q {
      NestedStep(Obj(live), t, q[|t|..]);
      assert t + q[|t|..] == q;
    }
    match Nested(Obj(live), t)
    case Found(v) => SetNodes(o, t, v, q);
    case _ => RemoveNodes(o, t, q);
  }

  lemma PrefixFactsSnoc(live: Object, before: seq<string>, last: string, q: Path)
    requires "" !in before && last != ""
    ensures Covered(before + [last], q) <==> Covered(before, q) || Tokens(last) <= q
    ensures LeadsToLive(live, before + [last], q) <==>
            LeadsToLive(live, before, q) || (q < Tokens(last) && Nested(Obj(live), Tokens(last)).Found?)
  {
    var all := before + [last];
    assert all[|before|] == last;
    assert forall i :: 0 <= i < |before| ==> all[i] == before[i];
  }

  lemma {:induction false} MaskNodes(live: Object, desired: Object, pointers: seq<string>, q: Path)
    requires "" !in pointers && CopyFields(live, desired, pointers).Some?
    ensures NodeAt(Obj(CopyFields(live, desired, pointers).value), q) == MaskedNode(live, desired, pointers, q)
  {
    if pointers != [] {
      var before, last := pointers[..|pointers| - 1], pointers[|pointers| - 1];
      MaskNodes(live, desired, before, q);
      CopyFieldNodes(live, CopyFields(live, desired, before).value, last, q);
      PrefixFactsSnoc(live, before, last, q);
      assert before + [last] == pointers;
      var t := Tokens(last);
      if q < t && Nested(Obj(live), t).Found? { BranchAbove(Obj(live), q, t); }
    }
  }

  /** Every listed pointer has the same presence and value in the result as in live. */
  lemma MaskTakesLiveAtPointers(desired: Object, live: Object, i: nat)
    requires Mask(desired, live).Some? && i < |IgnoredPointers(live)|
    ensures var t := Tokens(IgnoredPointers(live)[i]);
            Lookup(Obj(Mask(desired, live).value), t) == Lookup(Obj(live), t)
  {
    var ps := IgnoredPointers(live);
    var r := Mask(desired, live).value;
    forall q: Path | Tokens(ps[i]) <= q ensures NodeAt(Obj(r), q) == NodeAt(Obj(live), q)
    {
      MaskNodes(live, desired, ps, q);
      assert Covered(ps, q);
    }
    SameNodesSameSubtree(Obj(r), Obj(live), Tokens(ps[i]));
  }

  /** A path that is neither a prefix nor an extension of a pointer is as in desired. */
  lemma MaskKeepsDesiredElsewhere(desired: Object, live: Object, p: Path)
    requires Mask(desired, live).Some?
    requires forall i :: 0 <= i < |IgnoredPointers(live)| ==>
               var t := Tokens(IgnoredPointers(live)[i]); !(t <= p) && !(p <= t)
    ensures Lookup(Obj(Mask(desired, live).value), p) == Lookup(Obj(desired), p)
  {
    var ps := IgnoredPointers(live);
    var r := Mask(desired, live).value;
    forall q: Path | p <= q ensures NodeAt(Obj(r), q) == NodeAt(Obj(desired), q)
    {
      MaskNodes(live, desired, ps, q);
      forall i | 0 <= i < |ps| ensures !(Tokens(ps[i]) <= q) && !(q < Tokens(ps[i]))
      {
        ComparablePrefixes(p, Tokens(ps[i]), q);
      }
    }
    SameNodesSameSubtree(Obj(r), Obj(desired), p);
  }

  lemma ComparablePrefixes(p: Path, t: Path, q: Path)
    requires p <= q && !(t <= p) && !(p <= t)
    ensures !(t <= q) && !(q <= t)
  {
    assert t <= q && |t| <= |p| ==> t <= p;
    assert t <= q && |p| <= |t| ==> p <= t;
  }

  /** Masking keeps a string on which live and desired agree, whatever the pointers. */
  lemma MaskKeepsCommonString(desired: Object, live: Object, q: Path)
    requires Mask(desired, live).Some? && StringAt(live, q) == StringAt(desired, q)
    ensures StringAt(Mask(desired, live).value, q) == StringAt(desired, q)
  {
    var ps := IgnoredPointers(live);
    MaskNodes(live, desired, ps, q);
    StringNode(desired, q);
    StringNode(live, q);
    StringNode(Mask(desired, live).value, q);
    if !Covered(ps, q) && LeadsToLive(live, ps, q) {
      var i :| 0 <= i < |ps| && q < Tokens(ps[i]) && Nested(Obj(live), Tokens(ps[i])).Found?;
      BranchAbove(Obj(live), q, Tokens(ps[i]));
    }
  }

  lemma MaskKeepsIdentity(desired: Object, live: Object)
    requires Mask(desired, live).Some? && SameIdentity(live, desired)
    ensures SameIdentity(Mask(desired, live).value, desired)
  {
    MaskKeepsCommonString(desired, live, ["kind"]);
    MaskKeepsCommonString(desired, live, ["apiVersion"]);
    MaskKeepsCommonString(desired, live, ["metadata", "name"]);
    MaskKeepsCommonString(desired, live, ["metadata", "namespace"]);
  }

  /** Masking an already masked object changes nothing. */
  lemma MaskIsIdempotent(desired: Object, live: Object)
    requires Mask(desired, live).Some?
    ensures Mask(Mask(desired, live).value, live) == Mask(desired, live)
  {
    var ps := IgnoredPointers(live);
    var r := Mask(desired, live).value;
    forall i | 0 <= i < |ps| ensures CopyField(live, r, ps[i]) == Some(r)
    {
      MaskTakesLiveAtPointers(desired, live, i);
      PointersWereReadable(live, desired, ps, i);
      var t := Tokens(ps[i]);
      if Nested(Obj(live), t).Found? {
        SetPresentValue(r, t);
      } else {
        RemoveAbsentValue(r, t);
      }
    }
    FixedByEach(live, r, ps);
  }

  lemma {:induction false} PointersWereReadable(live: Object, o: Object, pointers: seq<string>, i: nat)
    requires "" !in pointers && i < |pointers| && CopyFields(live, o, pointers).Some?
    ensures pointers[i][0] == '/' && !Nested(Obj(live), Tokens(pointers[i])).Mismatch?
  {
    var before := pointers[..|pointers| - 1];
    if i < |before| {
      PointersWereReadable(live, o, before, i);
      assert before[i] == pointers[i];
    }
  }

  lemma {:induction false} FixedByEach(live: Object, o: Object, pointers: seq<string>)
    requires "" !in pointers
    requires forall i :: 0 <= i < |pointers| ==> CopyField(live, o, pointers[i]) == Some(o)
    ensures CopyFields(live, o, pointers) == Some(o)
  {
    if pointers != [] { FixedByEach(live, o, pointers[..|pointers| - 1]); }
  }

  /** Two listings of the same pointers, in any order and with any repetition, give the same object
      whenever both succeed. */
  lemma MaskIgnoresPointerOrder(live: Object, desired: Object, ps: seq<string>, qs: seq<string>)
    requires "" !in ps && "" !in qs
    requires forall p :: p in ps <==> p in qs
    requires CopyFields(live, desired, ps).Some? && CopyFields(live, desired, qs).Some?
    ensures CopyFields(live, desired, ps) == CopyFields(live, desired, qs)
  {
    var a, b := Obj(CopyFields(live, desired, ps).value), Obj(CopyFields(live, desired, qs).value);
    forall q: Path ensures NodeAt(a, q) == NodeAt(b, q)
    {
      MaskNodes(live, desired, ps, q);
      MaskNodes(live, desired, qs, q);
      MaskedNodeOrder(live, ps, qs, q);
      MaskedNodeOrder(live, qs, ps, q);
    }
    SameNodesSameTree(a, b);
  }

  lemma MaskedNodeOrder(live: Object, ps: seq<string>, qs: seq<string>, q: Path)
    requires "" !in ps && "" !in qs
    requires forall p :: p in ps ==> p in qs
    ensures Covered(ps, q) ==> Covered(qs, q)
    ensures LeadsToLive(live, ps, q) ==> LeadsToLive(live, qs, q)
  {
    if Covered(ps, q) {
      var i :| 0 <= i < |ps| && Tokens(ps[i]) <= q;
      assert ps[i] in qs;
      var k :| 0 <= k < |qs| && qs[k] == ps[i];
    }
    if LeadsToLive(live, ps, q) {
      var i :| 0 <= i < |ps| && q < Tokens(ps[i]) && Nested(Obj(live), Tokens(ps[i])).Found?;
      assert ps[i] in qs;
      var k :| 0 <= k < |qs| && qs[k] == ps[i];
    }
  }

  /** Each pointer parses, live can be read along it, and where live has it, every value in desired
      that is in its way has been replaced by an earlier pointer. */
  ghost predicate Unblocked(live: Object, desired: Object, pointers: seq<string>)
    requires "" !in pointers
  {
    forall i :: 0 <= i < |pointers| ==> UnblockedAt(live, desired, pointers[..i], pointers[i])
  }

  ghost predicate UnblockedAt(live: Object, desired: Object, before: seq<string>, pointer: string)
    requires "" !in before && pointer != ""
  {
    var t := Tokens(pointer);
    && pointer[0] == '/'
    && !Nested(Obj(live), t).Mismatch?
    && (Nested(Obj(live), t).Found? ==>
          forall q: Path :: q < t && q != [] && NodeAt(Obj(desired), q).Leaf? ==> Covered(before, q))
  }

  lemma UnblockedSnoc(live: Object, desired: Object, before: seq<string>, last: string)
    requires "" !in before && last != ""
    ensures Unblocked(live, desired, before + [last]) <==>
            Unblocked(live, desired, before) && UnblockedAt(live, desired, before, last)
  {
    var all := before + [last];
    assert all[|before|] == last && all[..|before|] == before;
    assert forall i :: 0 <= i < |before| ==> all[i] == before[i] && all[..i] == before[..i];
  }

  lemma UnblockedPrefixes(live: Object, desired: Object, pointers: seq<string>, q: Path)
    requires "" !in pointers && Unblocked(live, desired, pointers)
    requires q != [] && NodeAt(Obj(desired), q).Leaf? && LeadsToLive(live, pointers, q)
    ensures Covered(pointers, q)
  {
    var i :| 0 <= i < |pointers| && q < Tokens(pointers[i]) && Nested(Obj(live), Tokens(pointers[i])).Found?;
    assert UnblockedAt(live, desired, pointers[..i], pointers[i]);
    assert Covered(pointers[..i], q);
  }

  /** On the way to a value of live, a masked object has the leaves of desired that no pointer replaced. */
  lemma MaskedLeaf(live: Object, desired: Object, pointers: seq<string>, t: Path, q: Path)
    requires "" !in pointers && CopyFields(live, desired, pointers).Some? && Unblocked(live, desired, pointers)
    requires q < t && q != [] && Nested(Obj(live), t).Found?
    ensures NodeAt(Obj(CopyFields(live, desired, pointers).value), q).Leaf? <==>
            NodeAt(Obj(desired), q).Leaf? && !Covered(pointers, q)
  {
    MaskNodes(live, desired, pointers, q);
    BranchAbove(Obj(live), q, t);
    if NodeAt(Obj(desired), q).Leaf? && LeadsToLive(live, pointers, q) {
      UnblockedPrefixes(live, desired, pointers, q);
    }
  }

  /** When masking succeeds. */
  lemma {:induction false} MaskSucceedsIff(live: Object, desired: Object, pointers: seq<string>)
    requires "" !in pointers
    ensures CopyFields(live, desired, pointers).Some? <==> Unblocked(live, desired, pointers)
  {
    if pointers != [] {
      var before, last := pointers[..|pointers| - 1], pointers[|pointers| - 1];
      assert pointers == before + [last];
      MaskSucceedsIff(live, desired, before);
      UnblockedSnoc(live, desired, before, last);
      var t := Tokens(last);
      if CopyFields(live, desired, before).Some? && Nested(Obj(live), t).Found? {
        var o := CopyFields(live, desired, before).value;
        SetSucceedsIff(o, t, Nested(Obj(live), t).value);
        forall q: Path | q < t && q != []
          ensures NodeAt(Obj(o), q).Leaf? <==> NodeAt(Obj(desired), q).Leaf? && !Covered(before, q)
        {
          MaskedLeaf(live, desired, before, t, q);
        }
      }
    }
  }

  /** Success, unlike the result, does depend on the order: masking /a/b before /a fails where desired
      holds a scalar at /a, and masking /a first succeeds. */
  lemma MaskSuccessDependsOnOrder()
    ensures var live, desired := map["a" := Obj(map["b" := Int(1)])], map["a" := Int(0)];
            CopyFields(live, desired, ["/a/b", "/a"]).None? && CopyFields(live, desired, ["/a", "/a/b"]) == Some(live)
  {
    var live, desired := map["a" := Obj(map["b" := Int(1)])], map["a" := Int(0)];
    PointerRoundTrip(["a"]);
    PointerRoundTrip(["a", "b"]);
    assert EncodePointer(["a"]) == "/a" by { assert "a"[1..] == ""; }
    assert EncodePointer(["b"]) == "/b" by { assert "b"[1..] == ""; }
    assert EncodePointer(["a", "b"]) == "/a/b" by { assert "a"[1..] == "" && ["a", "b"][1..] == ["b"]; }
    assert ["a", "b"][1..] == ["b"] && ["a"][1..] == [] && ["b"][1..] == [];
    assert Nested(live["a"].fields["b"], []) == Found(Int(1));
    assert Nested(live["a"], ["b"]) == Found(Int(1));
    assert Nested(Obj(live), ["a", "b"]) == Found(Int(1)) && Nested(Obj(live), ["a"]) == Found(live["a"]);
    assert SetNested(desired, ["a", "b"], Int(1)) == None;
    assert CopyField(live, desired, "/a/b").None?;
    assert ["/a/b", "/a"][..1] == ["/a/b"] && ["/a/b"][..0] == [];
    assert ["/a", "/a/b"][..1] == ["/a"] && ["/a"][..0] == [];
    assert desired["a" := live["a"]] == live;
    assert CopyField(live, desired, "/a") == Some(live);
    SetPresentValue(live, ["a", "b"]);
  }
}
