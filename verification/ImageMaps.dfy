/** Mapping image references by glob rules, where one `**` captures part of the name. */
module ImageMaps {
  import opened Sequences

  // ----- names and tags -----

  /** Python's `rfind` of one character: its last index, or -1. */
  function LastIndex(s: string, c: char): (i: int)
    ensures -1 <= i < |s|
  {
    if s == "" then -1
    else if s[|s| - 1] == c then |s| - 1
    else LastIndex(s[..|s| - 1], c)
  }

  function NameTag(ref: string): (string, Option<string>) {
    var slash, colon := LastIndex(ref, '/'), LastIndex(ref, ':');
    if colon > slash then (ref[..colon], Some(ref[colon + 1..])) else (ref, None)
  }

  lemma {:induction false} LastIndexIsLast(s: string, c: char)
    ensures var i := LastIndex(s, c);
            (i >= 0 ==> s[i] == c) && forall j :: i < j < |s| ==> s[j] != c
  {
    if s != "" && s[|s| - 1] != c {
      LastIndexIsLast(s[..|s| - 1], c);
      var i := LastIndex(s, c);
      assert forall j :: i < j < |s| - 1 ==> s[..|s| - 1][j] == s[j];
    }
  }

  lemma LastIndexUnique(s: string, c: char, k: nat)
    requires k < |s| && s[k] == c && forall j :: k < j < |s| ==> s[j] != c
    ensures LastIndex(s, c) == k
  {
    LastIndexIsLast(s, c);
  }

  ghost predicate PlainTag(tag: string) {
    ':' !in tag && '/' !in tag
  }

  lemma TagIsPlain(ref: string)
    requires NameTag(ref).1.Some?
    ensures PlainTag(NameTag(ref).1.value) && ref == NameTag(ref).0 + ":" + NameTag(ref).1.value
  {
    LastIndexIsLast(ref, '/');
    LastIndexIsLast(ref, ':');
  }

  lemma JoinedNameTag(name: string, tag: string)
    requires PlainTag(tag)
    ensures NameTag(name + ":" + tag) == (name, Some(tag))
  {
    var ref := name + ":" + tag;
    LastIndexUnique(ref, ':', |name|);
    LastIndexIsLast(ref, '/');
    assert LastIndex(ref, '/') < |name| by {
      assert forall j :: |name| < j < |ref| ==> ref[j] == tag[j - |name| - 1];
    }
    assert ref[..|name|] == name && ref[|name| + 1..] == tag;
  }

  // ----- capturing -----

  const GLOB: string := "**"

  /** Where the first `**` starts, or -1. */
  function GlobIndex(pattern: string): (i: int)
    ensures -1 <= i && i + 2 <= |pattern| + 1
    ensures i >= 0 ==> i + 2 <= |pattern| && pattern[i] == '*' && pattern[i + 1] == '*'
  {
    if |pattern| < 2 then -1
    else if pattern[0] == '*' && pattern[1] == '*' then 0
    else
      var rest := GlobIndex(pattern[1..]);
      if rest < 0 then -1 else rest + 1
  }

  predicate HasGlob(pattern: string) {
    GlobIndex(pattern) >= 0
  }

  /** The parts of a pattern on the two sides of its first `**`. */
  function Left(pattern: string): string
    requires HasGlob(pattern)
  {
    pattern[..GlobIndex(pattern)]
  }

  function Right(pattern: string): string
    requires HasGlob(pattern)
  {
    pattern[GlobIndex(pattern) + 2..]
  }

  lemma {:induction false} GlobIndexIsFirst(pattern: string)
    ensures HasGlob(pattern) ==> GlobAt(pattern, GlobIndex(pattern))
    ensures forall i :: GlobAt(pattern, i) ==> 0 <= GlobIndex(pattern) <= i
  {
    if |pattern| >= 2 && !GlobAt(pattern, 0) {
      GlobIndexIsFirst(pattern[1..]);
      forall i | GlobAt(pattern, i) ensures GlobAt(pattern[1..], i - 1) {
      }
    }
  }

  /** The two sides and the first `**` make up the pattern, which has none before it. */
  lemma GlobIsFirst(pattern: string)
    ensures HasGlob(pattern) <==> exists i :: GlobAt(pattern, i)
    ensures HasGlob(pattern) ==>
              && pattern == Left(pattern) + GLOB + Right(pattern)
              && forall i :: GlobAt(pattern, i) ==> |Left(pattern)| <= i
  {
    GlobIndexIsFirst(pattern);
    hide GlobIndex;
    var k := GlobIndex(pattern);
    if k >= 0 {
      assert pattern[k..k + 2] == GLOB;
      assert pattern == pattern[..k] + pattern[k..k + 2] + pattern[k + 2..];
    }
  }

  ghost predicate GlobAt(pattern: string, i: int) {
    0 <= i && i + 2 <= |pattern| && pattern[i] == '*' && pattern[i + 1] == '*'
  }

  predicate StartsWith(s: string, prefix: string) {
    prefix <= s
  }

  predicate EndsWith(s: string, suffix: string) {
    |suffix| <= |s| && s[|s| - |suffix|..] == suffix
  }

  /** Python's `s[from:to]` for bounds that are not negative. */
  function Slice(s: string, from: nat, to: nat): string {
    var end := if to <= |s| then to else |s|;
    if from <= end then s[from..end] else ""
  }

  function Capture(pattern: string, value: string): Option<string> {
    if !HasGlob(pattern) then if value == pattern then Some("") else None
    else
      var left, right := Left(pattern), Right(pattern);
      if !StartsWith(value, left) || (right != "" && !EndsWith(value, right)) then None
      else
        var mid := Slice(value, |left|, if right != "" then |value| - |right| else |value|);
        if mid == "" then None else Some(mid)
  }

  /** A capture is exactly what a non-empty text in the place of `**` leaves, also where the two
      sides of the pattern could overlap in the value. */
  lemma CaptureIsExact(pattern: string, value: string, mid: string)
    ensures Capture(pattern, value) == Some(mid) <==>
            if HasGlob(pattern) then mid != "" && value == Left(pattern) + mid + Right(pattern)
            else mid == "" && value == pattern
  {
    if HasGlob(pattern) {
      var left, right := Left(pattern), Right(pattern);
      if value == left + mid + right {
        assert left <= value && value[|value| - |right|..] == right;
        assert value[|left|..|value| - |right|] == mid;
      }
      if Capture(pattern, value) == Some(mid) {
        var end := |value| - |right|;
        assert |left| < end;
        assert value == value[..|left|] + value[|left|..end] + value[end..];
      }
    }
  }

  // ----- rules -----

  datatype ImageMap = ImageMap(from: string, to: string) {
    function Match(image: string, pattern: string): Option<string> {
      var (srcName, srcTag) := NameTag(image);
      var (patName, patTag) := NameTag(pattern);
      var mid := Capture(patName, srcName);
      if mid.None? then None
      else if !TagAgrees(srcTag, patTag) then None
      else mid
    }

    function TryMap(image: string): Option<string> {
      var mid := Match(image, from);
      if mid.None? then None
      else
        var (toName, toTag) := NameTag(to);
        var name := ReplaceFirst(toName, mid.value);
        var tag := OrElse(toTag, OrElse(NameTag(image).1, ""));
        if tag != "" then Some(name + ":" + tag) else Some(name)
    }
  }

  /** A pattern's tag, if it has one, must be the reference's, where none counts as `latest`: a
      reference without a tag is taken exactly where the same name tagged `latest` is. */
  predicate TagAgrees(srcTag: Option<string>, patTag: Option<string>): (agrees: bool)
    ensures agrees <==> OrElse(patTag, "") == "" || OrElse(srcTag, "latest") == patTag.value
    ensures srcTag.None? ==> (agrees <==> TagAgrees(Some("latest"), patTag))
    decreases if srcTag.None? then 1 else 0
  {
    !(patTag.Some? && patTag.value != "" && OrElse(srcTag, "latest") != patTag.value)
  }

  /** Python's `a or b` on texts. */
  function OrElse(a: Option<string>, b: string): string {
    if a.Some? && a.value != "" then a.value else b
  }

  /** Python's `replace("**", mid, 1)`. */
  function ReplaceFirst(name: string, mid: string): string {
    if HasGlob(name) then Left(name) + mid + Right(name) else name
  }

  /** The text that `**` stands for where the pattern is the name; without `**` they have to be the same. */
  ghost predicate Fits(pattern: string, name: string, mid: string) {
    if HasGlob(pattern) then mid != "" && name == Left(pattern) + mid + Right(pattern)
    else mid == "" && name == pattern
  }

  /** A name with `**` replaced; one without `**` is taken as it is. */
  ghost predicate FilledIn(target: string, mid: string, name: string) {
    if HasGlob(target) then name == Left(target) + mid + Right(target) else name == target
  }

  /** Exactly what a rule maps, and to what: the name has to fit the pattern's and the tags to agree; the
      result is the target's name with the captured text filled in, under the target's tag or, where it has
      none, under the reference's own. */
  lemma TryMapExactly(rule: ImageMap, image: string)
    ensures var (name, tag) := NameTag(image);
            var (pattern, patTag) := NameTag(rule.from);
            var (target, toTag) := NameTag(rule.to);
            && (rule.TryMap(image).Some? <==> TagAgrees(tag, patTag) && exists mid :: Fits(pattern, name, mid))
            && forall mid :: Fits(pattern, name, mid) && rule.TryMap(image).Some? ==>
                 exists renamed :: FilledIn(target, mid, renamed) &&
                   rule.TryMap(image).value ==
                   if toTag.Some? && toTag.value != "" then renamed + ":" + toTag.value
                   else if tag.Some? && tag.value != "" then renamed + ":" + tag.value
                   else renamed
  {
    var (name, tag) := NameTag(image);
    var (pattern, patTag) := NameTag(rule.from);
    var (target, toTag) := NameTag(rule.to);
    hide NameTag, TagAgrees, Left, Right, HasGlob, Capture;
    forall mid ensures Capture(pattern, name) == Some(mid) <==> Fits(pattern, name, mid) {
      CaptureIsExact(pattern, name, mid);
    }
    assert Capture(pattern, name).Some? ==> Fits(pattern, name, Capture(pattern, name).value);
    forall mid | Fits(pattern, name, mid) && rule.TryMap(image).Some?
      ensures exists renamed :: FilledIn(target, mid, renamed) &&
                rule.TryMap(image).value ==
                if toTag.Some? && toTag.value != "" then renamed + ":" + toTag.value
                else if tag.Some? && tag.value != "" then renamed + ":" + tag.value
                else renamed
    {
      assert FilledIn(target, mid, ReplaceFirst(target, mid));
    }
  }

  /** A pattern for names only: no tag, and a `**`. */
  predicate NamePattern(pattern: string) {
    NameTag(pattern).1.None? && HasGlob(pattern)
  }

  predicate WellFormedRef(image: string) {
    NameTag(image).1 != Some("")
  }

  /** What a rule between two name patterns does to a reference. */
  lemma TryMapOfNames(rule: ImageMap, image: string)
    requires NamePattern(rule.from) && NamePattern(rule.to)
    ensures var (name, tag) := NameTag(image);
            var mid := Capture(rule.from, name);
            if mid.None? then rule.TryMap(image).None?
            else
              var renamed := Left(rule.to) + mid.value + Right(rule.to);
              rule.TryMap(image) == Some(if OrElse(tag, "") != "" then renamed + ":" + tag.value else renamed)
  {
    hide NameTag, Capture, GlobIndex, LastIndex;
    Untagged(rule.from);
    Untagged(rule.to);
    assert rule.Match(image, rule.from) == Capture(rule.from, NameTag(image).0);
  }

  lemma Untagged(ref: string)
    ensures NameTag(ref).1.None? ==> NameTag(ref) == (ref, None)
  {
  }

  /** A rule and its swapped rule undo each other on a tagged reference, and the tag is kept. */
  lemma SwappedRuleUndoesTagged(rule: ImageMap, image: string)
    requires NamePattern(rule.from) && NamePattern(rule.to) && WellFormedRef(image)
    requires Capture(rule.from, NameTag(image).0).Some? && NameTag(image).1.Some?
    ensures rule.TryMap(image).Some?
    ensures ImageMap(rule.to, rule.from).TryMap(rule.TryMap(image).value) == Some(image)
    ensures NameTag(rule.TryMap(image).value).1 == NameTag(image).1
  {
    var (name, tag) := NameTag(image);
    var mid := Capture(rule.from, name).value;
    var name' := Left(rule.to) + mid + Right(rule.to);
    TryMapOfNames(rule, image);
    TagIsPlain(image);
    assert rule.TryMap(image).value == name' + ":" + tag.value;
    JoinedNameTag(name', tag.value);
    CaptureIsExact(rule.from, name, mid);
    CaptureIsExact(rule.to, name', mid);
    TryMapOfNames(ImageMap(rule.to, rule.from), rule.TryMap(image).value);
  }

  /** The renamed reference is read as having a tag exactly when the captured text is, and no slash
      follows it. */
  lemma RenamedTag(to: string, mid: string)
    requires NamePattern(to)
    ensures NameTag(Left(to) + mid + Right(to)).1.Some? <==> '/' !in Right(to) && NameTag(mid).1.Some?
  {
    var left, right := Left(to), Right(to);
    assert to == left + GLOB + right;
    hide NameTag, Tagged;
    TaggedConcat(left + GLOB, right);
    TaggedConcat(left, GLOB);
    TaggedConcat(left + mid, right);
    TaggedConcat(left, mid);
    GlobIsUntagged();
    TaggedIsTagged(to);
    TaggedIsTagged(mid);
    TaggedIsTagged(left + mid + right);
  }

  predicate Tagged(ref: string) {
    LastIndex(ref, ':') > LastIndex(ref, '/')
  }

  lemma TaggedIsTagged(ref: string)
    ensures NameTag(ref).1.Some? <==> Tagged(ref)
  {
  }

  lemma GlobIsUntagged()
    ensures !Tagged(GLOB) && '/' !in GLOB
  {
    LastIndexAbsent(GLOB, ':');
    LastIndexIsLast(GLOB, '/');
  }

  /** A later part decides, if it has a colon or a slash. */
  lemma TaggedConcat(a: string, b: string)
    ensures Tagged(a + b) <==> Tagged(b) || ('/' !in b && Tagged(a))
  {
    LastIndexConcat(a, b, '/');
    LastIndexConcat(a, b, ':');
    LastIndexAbsent(b, '/');
    LastIndexIsLast(b, '/');
    LastIndexIsLast(b, ':');
    LastIndexIsLast(a, '/');
    LastIndexIsLast(a, ':');
    hide LastIndex;
  }

  lemma LastIndexConcat(a: string, b: string, c: char)
    ensures LastIndex(a + b, c) == if LastIndex(b, c) >= 0 then |a| + LastIndex(b, c) else LastIndex(a, c)
  {
    LastIndexIsLast(a, c);
    LastIndexIsLast(b, c);
    LastIndexIsLast(a + b, c);
    var s, i := a + b, LastIndex(b, c);
    if i >= 0 {
      assert s[|a| + i] == c;
      assert forall j :: |a| + i < j < |s| ==> s[j] == b[j - |a|];
    } else {
      assert forall j :: |a| <= j < |s| ==> s[j] == b[j - |a|];
      assert forall j :: 0 <= j < |a| ==> s[j] == a[j];
    }
  }

  lemma LastIndexAbsent(s: string, c: char)
    ensures LastIndex(s, c) < 0 <==> c !in s
  {
    LastIndexIsLast(s, c);
  }

  /** On an untagged reference, where the rule captures `mid`, they do so exactly when the captured text
      does not itself end in what reads as a tag, or a slash follows it in the target. */
  lemma SwappedRuleUndoesUntagged(rule: ImageMap, image: string, mid: string)
    requires NamePattern(rule.from) && NamePattern(rule.to) && NameTag(image).1.None?
    requires image == Left(rule.from) + mid + Right(rule.from) && mid != ""
    ensures rule.TryMap(image).Some?
    ensures ImageMap(rule.to, rule.from).TryMap(rule.TryMap(image).value) == Some(image) <==>
            '/' in Right(rule.to) || NameTag(mid).1.None?
  {
    var back := ImageMap(rule.to, rule.from);
    CaptureIsExact(rule.from, image, mid);
    TryMapOfNames(rule, image);
    var image' := Left(rule.to) + mid + Right(rule.to);
    assert rule.TryMap(image).value == image';
    TryMapOfNames(back, image');
    RenamedTag(rule.to, mid);
    if NameTag(image').1.None? {
      CaptureIsExact(rule.to, image', mid);
    } else {
      ReadAsTag(rule, image, image', mid);
    }
  }

  lemma ReadAsTag(rule: ImageMap, image: string, image': string, mid: string)
    requires NamePattern(rule.from) && NamePattern(rule.to) && NameTag(image).1.None?
    requires image == Left(rule.from) + mid + Right(rule.from) && image' == Left(rule.to) + mid + Right(rule.to)
    requires NameTag(image').1.Some?
    ensures ImageMap(rule.to, rule.from).TryMap(image') != Some(image)
  {
    var back := ImageMap(rule.to, rule.from);
    var (name, tag) := NameTag(image');
    TryMapOfNames(back, image');
    TagIsPlain(image');
    var mid' := Capture(rule.to, name);
    if mid'.Some? {
      CaptureIsExact(rule.to, name, mid'.value);
      var result := Left(rule.from) + mid'.value + Right(rule.from);
      if tag.value != "" {
        JoinedNameTag(result, tag.value);
      } else {
        assert |result| < |image|;
      }
    }
  }

  lemma WithoutColon(ref: string)
    requires ':' !in ref
    ensures NameTag(ref) == (ref, None)
  {
    LastIndexAbsent(ref, ':');
  }

  lemma BareGlob(pattern: string)
    requires GLOB <= pattern && ':' !in pattern
    ensures NamePattern(pattern) && Left(pattern) == "" && Right(pattern) == pattern[2..]
  {
    hide NameTag;
    WithoutColon(pattern);
    assert pattern[0] == GLOB[0] && pattern[1] == GLOB[1];
    GlobAtFront(pattern);
  }

  lemma GlobAtFront(pattern: string)
    requires |pattern| >= 2 && pattern[0] == '*' && pattern[1] == '*'
    ensures HasGlob(pattern) && Left(pattern) == "" && Right(pattern) == pattern[2..]
  {
    assert GlobIndex(pattern) == 0;
    assert pattern[..0] == "";
  }

  lemma ColonBeforeSlash(front: string, behind: string)
    requires '/' in behind && ':' !in behind
    ensures NameTag(front + behind) == (front + behind, None)
  {
    LastIndexConcat(front, behind, '/');
    LastIndexConcat(front, behind, ':');
    LastIndexAbsent(behind, '/');
    LastIndexAbsent(behind, ':');
  }

  /** A family that is not undone, such as `a:1/x` for the target `**`: the port becomes a tag. */
  lemma PortReadAsTag(rule: ImageMap, host: string, port: string, behind: string)
    requires rule.from == GLOB + behind && rule.to == GLOB && '/' in behind && ':' !in behind
    requires host != "" && port != "" && PlainTag(port)
    ensures rule.TryMap(host + ":" + port + behind) == Some(host + ":" + port)
    ensures ImageMap(rule.to, rule.from).TryMap(host + ":" + port) == Some(host + behind + ":" + port)
  {
    var renamed := host + ":" + port;
    BareGlob(rule.from);
    BareGlob(rule.to);
    ColonBeforeSlash(renamed, behind);
    JoinedNameTag(host, port);
    PortForward(rule, renamed, behind);
    PortBack(rule, renamed, host, port, behind);
  }

  lemma PortOfHostA()
    ensures var rule := ImageMap(GLOB + "/x", GLOB);
            && rule.TryMap("a" + ":" + "1" + "/x") == Some("a" + ":" + "1")
            && ImageMap(rule.to, rule.from).TryMap("a" + ":" + "1") == Some("a" + "/x" + ":" + "1")
  {
    assert '/' == "/x"[0] && ':' !in "/x" && PlainTag("1");
    hide *;
    PortReadAsTag(ImageMap(GLOB + "/x", GLOB), "a", "1", "/x");
  }

  lemma NothingInFront(mid: string, behind: string)
    ensures "" + mid + behind == mid + behind && mid + "" == mid
  {
  }

  lemma PortForward(rule: ImageMap, renamed: string, behind: string)
    requires NamePattern(rule.from) && NamePattern(rule.to) && renamed != ""
    requires Left(rule.from) == "" && Right(rule.from) == behind && Left(rule.to) == "" && Right(rule.to) == ""
    requires NameTag(renamed + behind) == (renamed + behind, None)
    ensures rule.TryMap(renamed + behind) == Some(renamed)
  {
    hide NameTag, Capture, Left, Right;
    var image := renamed + behind;
    NothingInFront(renamed, behind);
    NothingInFront(renamed, "");
    CaptureIsExact(rule.from, image, renamed);
    TryMapOfNames(rule, image);
  }

  lemma PortBack(rule: ImageMap, renamed: string, host: string, port: string, behind: string)
    requires NamePattern(rule.from) && NamePattern(rule.to) && host != "" && port != ""
    requires Left(rule.from) == "" && Right(rule.from) == behind && Left(rule.to) == "" && Right(rule.to) == ""
    requires NameTag(renamed) == (host, Some(port))
    ensures ImageMap(rule.to, rule.from).TryMap(renamed) == Some(host + behind + ":" + port)
  {
    hide NameTag, Capture, Left, Right, OrElse;
    NothingInFront(host, behind);
    NothingInFront(host, "");
    CaptureIsExact(rule.to, host, host);
    TryMapOfNames(ImageMap(rule.to, rule.from), renamed);
    OrElseText(port);
  }

  lemma OrElseText(text: string)
    requires text != ""
    ensures OrElse(Some(text), "") == text
  {
  }

  /** A tag of the target replaces the tag of the reference. */
  lemma TargetTagWins(rule: ImageMap, image: string)
    requires OrElse(NameTag(rule.to).1, "") != "" && rule.TryMap(image).Some?
    ensures NameTag(rule.TryMap(image).value).1 == NameTag(rule.to).1
  {
    TagIsPlain(rule.to);
    var (name, tag) := NameTag(rule.to);
    JoinedNameTag(ReplaceFirst(name, rule.Match(image, rule.from).value), tag.value);
  }
}
