/**
 * Identity and number normalisation, the random send delay and text extraction
 * (src/utils.js). A JID ("Jabber id") names a chat party, e.g. `6281234@s.whatsapp.net`.
 */
module Utils {
  import opened Strings
  import opened Wrappers
  import opened Messages
  import C = Constants

  // ---------------------------------------------------------------- numbers and JIDs

  /**
   * normalizeIndoNumberDigits: keeps the digits; a national trunk prefix `0` is rewritten to the
   * country code `62`, a bare mobile number starting with `8` gets `62` in front, and every other
   * digit string (in particular one already starting with `62`) is returned as it is.
   */
  function NormalizeIndoNumberDigits(digits: string): (r: string)
    ensures IsDigits(r)
    ensures digits == "" ==> r == ""
  {
    if digits == "" then ""
    else
      var d := KeepDigits(digits);
      if StartsWith(d, "0") then "62" + d[1..]
      else if StartsWith(d, "8") then "62" + d
      else d
  }

  /** The three rewrites, stated on the digits of the input. */
  lemma IndoNumberCases(digits: string)
    requires digits != ""
    ensures var d := KeepDigits(digits);
      && (StartsWith(d, "0") ==> NormalizeIndoNumberDigits(digits) == "62" + d[1..])
      && (StartsWith(d, "8") ==> NormalizeIndoNumberDigits(digits) == "62" + d)
      && (!StartsWith(d, "0") && !StartsWith(d, "8") ==> NormalizeIndoNumberDigits(digits) == d)
      && (StartsWith(d, "62") ==> NormalizeIndoNumberDigits(digits) == d)
  {
  }

  /** A normalised number is a fixed point of normalisation. */
  lemma IndoNumberIdempotent(digits: string)
    ensures NormalizeIndoNumberDigits(NormalizeIndoNumberDigits(digits)) == NormalizeIndoNumberDigits(digits)
  {
    var r := NormalizeIndoNumberDigits(digits);
    if r != "" {
      assert KeepDigits(r) == r;
    }
  }

  /** The national and international spellings of one mobile number normalise alike. */
  lemma IndoNumberForms(subscriber: string)
    requires IsDigits(subscriber) && StartsWith(subscriber, "8")
    ensures NormalizeIndoNumberDigits("0" + subscriber) == NormalizeIndoNumberDigits("62" + subscriber)
    ensures NormalizeIndoNumberDigits(subscriber) == NormalizeIndoNumberDigits("62" + subscriber)
  {
    assert KeepDigits("0" + subscriber) == "0" + subscriber;
    assert ("0" + subscriber)[1..] == subscriber;
    assert KeepDigits("62" + subscriber) == "62" + subscriber;
  }

  /** digitsFromJid: the digits of the text before the first `@` and before the first `:`. */
  function DigitsFromJid(jid: string): (r: string)
    ensures IsDigits(r)
  {
    KeepDigits(Split(Split(jid, '@')[0], ':')[0])
  }

  /** The text DigitsFromJid reads is the longest prefix of the JID holding neither `@` nor `:`. */
  lemma DigitsFromJidReadsUser(jid: string)
    ensures var user := Split(Split(jid, '@')[0], ':')[0];
      && |user| <= |jid| && user == jid[..|user|] && '@' !in user && ':' !in user
      && (|user| < |jid| ==> jid[|user|] == '@' || jid[|user|] == ':')
      && DigitsFromJid(jid) == KeepDigits(user)
  {
    var left := Split(jid, '@')[0];
    SplitHead(jid, '@');
    SplitHead(left, ':');
  }

  /** `s` ends in `@c.us`, in any letter case. */
  predicate HasLegacySuffix(s: string) {
    |s| >= 5 && Lower(s[|s| - 5..]) == C.LegacySuffix
  }

  /** `s` ends in `@s.whatsapp.net`, in any letter case. */
  predicate HasPersonalSuffix(s: string) {
    |s| >= 15 && Lower(s[|s| - 15..]) == C.PersonalSuffix
  }

  /**
   * normalizeJidForCompare: trims the JID and rewrites a trailing legacy suffix `@c.us`
   * (matched case-insensitively) to the personal suffix `@s.whatsapp.net`.
   */
  function NormalizeJidForCompare(jid: string): (r: string)
    ensures !HasLegacySuffix(r)
    ensures IsTrimmed(r)
  {
    if jid == "" then ""
    else
      var j := Trim(jid);
      if HasLegacySuffix(j) then PersonalForm(j) else j
  }

  /**
   * What normalisation does to each input: the empty JID stays empty, a trimmed JID without the
   * legacy suffix comes back as it is, and one with it keeps its user part and gains the personal
   * suffix.
   */
  lemma NormalizeJidForCompareCases(jid: string)
    ensures jid == "" ==> NormalizeJidForCompare(jid) == ""
    ensures !HasLegacySuffix(Trim(jid)) ==> NormalizeJidForCompare(jid) == Trim(jid)
    ensures HasLegacySuffix(Trim(jid)) ==>
      var j, r := Trim(jid), NormalizeJidForCompare(jid);
      EndsWith(r, C.PersonalSuffix) && r[..|r| - 15] == j[..|j| - 5]
  {
  }

  /** `j.replace(/@c\.us$/i, "@s.whatsapp.net")` for a `j` that has the legacy suffix. */
  function PersonalForm(j: string): (r: string)
    requires |j| >= |C.LegacySuffix|
    ensures EndsWith(r, C.PersonalSuffix) && !HasLegacySuffix(r)
    ensures IsTrimmed(j) ==> IsTrimmed(r)
  {
    var r := j[..|j| - 5] + C.PersonalSuffix;
    assert r[|r| - 1] == 't';
    assert r[0] == if |j| > 5 then j[0] else '@';
    NotLegacy(r);
    r
  }

  lemma NormalizeJidTrimmedInput(jid: string)
    ensures NormalizeJidForCompare(Trim(jid)) == NormalizeJidForCompare(jid)
  {
    TrimIdempotent(jid);
  }

  /** Normalising twice is normalising once. */
  lemma NormalizeJidIdempotent(jid: string)
    ensures NormalizeJidForCompare(NormalizeJidForCompare(jid)) == NormalizeJidForCompare(jid)
  {
    var r := NormalizeJidForCompare(jid);
    if r != "" {
      assert Trim(r) == r;
    }
  }

  /** A five-letter suffix that lowercases to `@c.us` is trimmed and makes a JID legacy. */
  lemma LegacySpelling(user: string, legacy: string)
    requires Lower(legacy) == C.LegacySuffix
    ensures |legacy| == 5 && IsTrimmed(legacy)
    ensures HasLegacySuffix(user + legacy) && (user + legacy)[..|user|] == user
  {
    assert LowerChar(legacy[0]) == '@' && LowerChar(legacy[4]) == 's';
    var j := user + legacy;
    assert j[|j| - 5..] == legacy;
  }

  /** A JID with the personal suffix normalises to its trimmed start and that suffix. */
  lemma NormalizePersonal(user: string)
    ensures NormalizeJidForCompare(user + C.PersonalSuffix) == TrimStart(user) + C.PersonalSuffix
  {
    TrimAppend(user, C.PersonalSuffix);
    var p := TrimStart(user) + C.PersonalSuffix;
    assert p[|p| - 1] == 't';
    NotLegacy(p);
  }

  /** A JID ending in a letter other than `s` or `S` does not carry the legacy suffix. */
  lemma NotLegacy(x: string)
    requires x != [] && LowerChar(x[|x| - 1]) != 's'
    ensures !HasLegacySuffix(x)
  {
    if |x| >= 5 {
      var t := x[|x| - 5..];
      assert Lower(t)[4] == LowerChar(x[|x| - 1]);
    }
  }

  /** The legacy suffix, in any letter case, is rewritten to the personal suffix. */
  lemma NormalizeLegacy(user: string, legacy: string)
    requires Lower(legacy) == C.LegacySuffix
    ensures NormalizeJidForCompare(user + legacy) == TrimStart(user) + C.PersonalSuffix
  {
    var t := TrimStart(user);
    LegacySpelling(t, legacy);
    TrimAppend(user, legacy);
    var j := t + legacy;
    assert j[..|j| - 5] == t;
  }

  /** The legacy suffix, in any letter case, and the personal suffix name the same party. */
  lemma NormalizeJidSuffixForms(user: string, legacy: string)
    requires Lower(legacy) == C.LegacySuffix
    ensures NormalizeJidForCompare(user + legacy) == NormalizeJidForCompare(user + C.PersonalSuffix)
  {
    NormalizeLegacy(user, legacy);
    NormalizePersonal(user);
  }

  /** The three suffixed forms a bare number is known under. */
  function SuffixForms(digits: string): set<string> {
    {digits + C.PersonalSuffix, digits + C.LegacySuffix, digits + C.LidSuffix}
  }

  /** The numeric forms: the three suffixed forms of the digits and of their normalised spelling. */
  function NumberForms(digits: string): set<string> {
    var indo := NormalizeIndoNumberDigits(digits);
    if digits == "" then {}
    else SuffixForms(digits) + (if indo != "" && indo != digits then SuffixForms(indo) else {})
  }

  /** The personal/legacy swap of a trimmed JID carrying either suffix. */
  function SwapForms(j: string): set<string> {
    (if HasPersonalSuffix(j) then {j[..|j| - 15] + C.LegacySuffix} else {})
    + (if HasLegacySuffix(j) then {j[..|j| - 5] + C.PersonalSuffix} else {})
  }

  /** Every string addJidVariants adds for `jid`. */
  function JidVariants(jid: string): (r: set<string>)
    ensures jid == "" <==> r == {}
    ensures jid != "" ==> Trim(jid) in r && NormalizeJidForCompare(Trim(jid)) in r
  {
    if jid == "" then {}
    else
      var j := Trim(jid);
      {j} + {NormalizeJidForCompare(j)} + NumberForms(DigitsFromJid(j)) + SwapForms(j)
  }

  lemma JidVariantsParts(jid: string)
    requires jid != ""
    ensures var j := Trim(jid);
      JidVariants(jid) == {j} + {NormalizeJidForCompare(j)} + NumberForms(DigitsFromJid(j)) + SwapForms(j)
  {
  }

  /** What the variants of a JID are guaranteed to contain. */
  lemma JidVariantsCover(jid: string)
    requires jid != ""
    ensures Trim(jid) in JidVariants(jid)
    ensures NormalizeJidForCompare(jid) in JidVariants(jid)
    ensures var d := DigitsFromJid(Trim(jid)); d != "" ==> SuffixForms(d) <= JidVariants(jid)
    ensures var d := DigitsFromJid(Trim(jid)); d != "" ==> SuffixForms(NormalizeIndoNumberDigits(d)) <= JidVariants(jid)
  {
    NormalizeJidTrimmedInput(jid);
    var d := DigitsFromJid(Trim(jid));
    if d != "" {
      JidVariantsParts(jid);
      assert KeepDigits(d) == d;
      var indo := NormalizeIndoNumberDigits(d);
      assert indo != "" by {
        if !StartsWith(d, "0") && !StartsWith(d, "8") {
          assert indo == d;
        }
      }
      assert NumberForms(d) <= JidVariants(jid);
    }
  }

  /** A mutable `Set` of strings, as passed to addJidVariants. */
  class JidSet {
    var elems: set<string>

    constructor ()
      ensures elems == {}
    {
      elems := {};
    }

    method Add(x: string)
      modifies this
      ensures elems == old(elems) + {x}
    {
      elems := elems + {x};
    }
  }

  /** Adds the three suffixed forms of a number. */
  method AddSuffixForms(s: JidSet, digits: string)
    modifies s
    ensures s.elems == old(s.elems) + SuffixForms(digits)
  {
    s.Add(digits + C.PersonalSuffix);
    s.Add(digits + C.LegacySuffix);
    s.Add(digits + C.LidSuffix);
  }

  /** Adds the suffixed forms of a number and of its normalised spelling. */
  method AddNumberForms(s: JidSet, digits: string)
    modifies s
    ensures s.elems == old(s.elems) + NumberForms(digits)
  {
    if digits != "" {
      AddSuffixForms(s, digits);
      var normalized := NormalizeIndoNumberDigits(digits);
      if normalized != "" && normalized != digits {
        AddSuffixForms(s, normalized);
      }
    }
  }

  /** Adds the personal/legacy swap of a trimmed JID. */
  method AddSwapForms(s: JidSet, j: string)
    modifies s
    ensures s.elems == old(s.elems) + SwapForms(j)
  {
    if HasPersonalSuffix(j) {
      s.Add(j[..|j| - 15] + C.LegacySuffix);
    }
    if HasLegacySuffix(j) {
      s.Add(j[..|j| - 5] + C.PersonalSuffix);
    }
  }

  /** addJidVariants: adds every known spelling of `jid` to `s`, and nothing else. */
  method AddJidVariants(s: JidSet, jid: string)
    modifies s
    ensures s.elems == old(s.elems) + JidVariants(jid)
  {
    if jid == "" {
      return;
    }
    var j := Trim(jid);
    var normalized := NormalizeJidForCompare(j);
    var digits := DigitsFromJid(j);
    ghost var before := s.elems;
    s.Add(j);
    s.Add(normalized);
    AddNumberForms(s, digits);
    AddSwapForms(s, j);
    JidVariantsParts(jid);
    UnionRegroup(before, {j}, {normalized}, NumberForms(digits), SwapForms(j));
  }

  lemma UnionRegroup<T>(o: set<T>, a: set<T>, b: set<T>, c: set<T>, d: set<T>)
    ensures o + a + b + c + d == o + (a + b + c + d)
  {
  }

  // ---------------------------------------------------------------- random delay

  /**
   * randomDelay: `Math.floor(min + Math.random() * (max - min))`, where `random` is the value
   * `Math.random()` drew from [0, 1); `min` itself when the range is empty.
   */
  function RandomDelay(min: int, max: int, random: real): (d: int)
    requires 0.0 <= random < 1.0
    ensures max <= min ==> d == min
    ensures min < max ==> min <= d < max
  {
    if max <= min then min
    else
      var w := (max - min) as real;
      ScaledBelow(random, w);
      (min as real + random * w).Floor
  }

  /** A fraction in [0, 1) of a positive width lies in [0, width). */
  lemma ScaledBelow(random: real, w: real)
    requires 0.0 <= random < 1.0 && w > 0.0
    ensures 0.0 <= random * w < w
  {
    assert w - random * w == (1.0 - random) * w;
  }

  /** Every delay in [min, max) is drawn by some value of `Math.random()`. */
  lemma RandomDelayReachesAll(min: int, max: int, d: int)
    requires min <= d < max
    ensures var random := (d - min) as real / (max - min) as real;
      0.0 <= random < 1.0 && RandomDelay(min, max, random) == d
  {
    var w := (max - min) as real;
    var random := (d - min) as real / w;
    assert random * w == (d - min) as real;
    assert 0.0 <= random < 1.0;
    assert min as real + random * w == d as real;
  }

  // ---------------------------------------------------------------- text extraction

  function UnwrapEphemeral(m: Content): Content {
    if m.ephemeral.Some? then m.ephemeral.value else m
  }

  function UnwrapViewOnce(m: Content): Content {
    if m.viewOnce.Some? then m.viewOnce.value else m
  }

  function UnwrapViewOnceV2(m: Content): Content {
    if m.viewOnceV2.Some? then m.viewOnceV2.value else m
  }

  /** The text-bearing fields of a message body, in the order extractTextFromMessage tries them. */
  function TextFields(m: Content): (fs: seq<string>)
    ensures |fs| == 8
  {
    [ m.conversation,
      if m.extendedText.Some? then m.extendedText.value.text else "",
      m.imageCaption, m.videoCaption,
      m.selectedButtonId, m.selectedDisplayText,
      m.listTitle, m.selectedRowId ]
  }

  /** The first non-empty string of `fs`, or `""`: what a chain `a || b || ... || ""` yields. */
  function FirstNonEmpty(fs: seq<string>): (r: string)
    ensures r == "" <==> forall i :: 0 <= i < |fs| ==> fs[i] == ""
    ensures r != "" ==> exists i :: 0 <= i < |fs| && fs[i] == r && forall j :: 0 <= j < i ==> fs[j] == ""
  {
    if fs == [] then ""
    else if fs[0] != "" then fs[0]
    else
      var r := FirstNonEmpty(fs[1..]);
      assert forall i :: 1 <= i < |fs| ==> fs[i] == fs[1..][i - 1];
      r
  }

  /** The message body after the ephemeral, view-once and view-once-v2 wrappers are opened. */
  function Unwrapped(m: Content): Content {
    UnwrapViewOnceV2(UnwrapViewOnce(UnwrapEphemeral(m)))
  }

  /**
   * extractTextFromMessage: unwraps an ephemeral, then a view-once, then a view-once-v2 wrapper
   * (each at most once) and returns the first non-empty text field, or `""`.
   */
  function ExtractTextFromMessage(message: Option<Content>): (text: string)
    ensures message.None? ==> text == ""
    ensures text != "" ==> message.Some? && text in TextFields(Unwrapped(message.value))
  {
    if message.None? then ""
    else
      var m := message.value;
      var m := UnwrapEphemeral(m);
      var m := UnwrapViewOnce(m);
      var m := UnwrapViewOnceV2(m);
      if m.conversation != "" then m.conversation
      else if m.extendedText.Some? && m.extendedText.value.text != "" then m.extendedText.value.text
      else if m.imageCaption != "" then m.imageCaption
      else if m.videoCaption != "" then m.videoCaption
      else if m.selectedButtonId != "" then m.selectedButtonId
      else if m.selectedDisplayText != "" then m.selectedDisplayText
      else if m.listTitle != "" then m.listTitle
      else m.selectedRowId
  }

  /** The extracted text is the first non-empty text field of the unwrapped body. */
  lemma ExtractTextIsFirstNonEmpty(m: Content)
    ensures ExtractTextFromMessage(Some(m)) == FirstNonEmpty(TextFields(Unwrapped(m)))
  {
    var u := Unwrapped(m);
    FirstOfEight(u.conversation, if u.extendedText.Some? then u.extendedText.value.text else "",
                 u.imageCaption, u.videoCaption, u.selectedButtonId, u.selectedDisplayText, u.listTitle, u.selectedRowId);
  }

  /** A chain `a || b || ... || h` over eight strings is FirstNonEmpty of the eight. */
  lemma FirstOfEight(a: string, b: string, c: string, d: string, e: string, f: string, g: string, h: string)
    ensures FirstNonEmpty([a, b, c, d, e, f, g, h]) ==
      if a != "" then a else if b != "" then b else if c != "" then c else if d != "" then d
      else if e != "" then e else if f != "" then f else if g != "" then g else h
  {
    FirstNonEmptyCons(h, []);
    FirstNonEmptyCons(g, [h]);
    FirstNonEmptyCons(f, [g, h]);
    FirstNonEmptyCons(e, [f, g, h]);
    FirstNonEmptyCons(d, [e, f, g, h]);
    FirstNonEmptyCons(c, [d, e, f, g, h]);
    FirstNonEmptyCons(b, [c, d, e, f, g, h]);
    FirstNonEmptyCons(a, [b, c, d, e, f, g, h]);
  }

  /** The first non-empty field of a list is its head when that has text, else the first of the rest. */
  lemma FirstNonEmptyCons(x: string, rest: seq<string>)
    ensures FirstNonEmpty([x] + rest) == if x != "" then x else FirstNonEmpty(rest)
  {
    assert ([x] + rest)[1..] == rest;
  }

  /** The extracted text is `""` exactly when the unwrapped body holds no text at all. */
  lemma ExtractTextEmpty(m: Content)
    ensures ExtractTextFromMessage(Some(m)) == "" <==>
      forall i :: 0 <= i < 8 ==> TextFields(Unwrapped(m))[i] == ""
  {
    ExtractTextIsFirstNonEmpty(m);
  }

  /** An ephemeral wrapper is opened once only: one nested inside it hides its text. */
  lemma EphemeralOpenedOnce(inner: Content)
    ensures ExtractTextFromMessage(Some(Blank.(ephemeral := Some(Blank.(ephemeral := Some(inner)))))) == ""
  {
  }
}
