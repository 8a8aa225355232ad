/** Rebuilding a bundle from a template and a source context, as the builder and the proxy each do it. */
module Materialize {
  import opened Common
  import opened Text
  import opened Json
  import opened ProxyPath

  /**
   What JavaScript and the hash library supply: canonical SHA-256, `Number(s)` where it is an
   integer, `String(n)` of a number and `String(v)` of anything that is not a string.
   */
  datatype Js = Js(hash: Json -> string, toIndex: string -> Option<int>, show: real -> string, coerce: Option<Json> -> string)

  const PLACEHOLDER := "$source."

  predicate IsPlaceholder(s: string) {
    |PLACEHOLDER| <= |s| && s[..|PLACEHOLDER|] == PLACEHOLDER
  }

  /** One path segment: `None` is undefined. */
  function Descend(js: Js, value: Json, segment: string): Option<Json> {
    match value
    case Arr(items) =>
      var i := js.toIndex(segment);
      if i.Some? && 0 <= i.value < |items| then Some(items[i.value]) else None
    case Obj(fields) => Field(fields, segment)
    case _ => None
  }

  /** A path as a composition of descents. */
  function Resolve(js: Js, value: Json, segments: seq<string>): Option<Json> {
    if segments == [] then Some(value)
    else
      var next := Descend(js, value, segments[0]);
      if next.None? then None else Resolve(js, next.value, segments[1..])
  }

  /** A segment leads to the field of that name of an object, to the item of that index of an array, and from anything else nowhere. */
  lemma OneSegment(js: Js, value: Json, segment: string, rest: seq<string>)
    ensures value.Obj? && segment in value.fields ==> Resolve(js, value, [segment] + rest) == Resolve(js, value.fields[segment], rest)
    ensures value.Obj? && segment !in value.fields ==> Resolve(js, value, [segment] + rest).None?
    ensures value.Arr? ==>
              (forall i | 0 <= i < |value.items| && js.toIndex(segment) == Some(i) ::
                 Resolve(js, value, [segment] + rest) == Resolve(js, value.items[i], rest))
              && (js.toIndex(segment).None? || !(0 <= js.toIndex(segment).value < |value.items|) ==> Resolve(js, value, [segment] + rest).None?)
    ensures !value.Obj? && !value.Arr? ==> Resolve(js, value, [segment] + rest).None?
  {
    assert ([segment] + rest)[1..] == rest;
  }

  lemma {:induction false} ResolveNext(js: Js, value: Json, segments: seq<string>, last: string)
    ensures Resolve(js, value, segments + [last]) ==
            var before := Resolve(js, value, segments);
            if before.None? then None else Descend(js, before.value, last)
    decreases |segments|
  {
    if segments == [] {
      assert [last][1..] == [];
    } else {
      assert (segments + [last])[1..] == segments[1..] + [last];
      var next := Descend(js, value, segments[0]);
      if next.Some? {
        ResolveNext(js, next.value, segments[1..], last);
      }
    }
  }

  /** `lookupSourcePath`: undefined stays undefined to the end of the path. */
  method LookupSourcePath(js: Js, context: Json, path: string) returns (found: Option<Json>)
    ensures found == Resolve(js, context, Split(path, '.'))
  {
    var segments := Split(path, '.');
    found := Some(context);
    for i := 0 to |segments|
      invariant found == Resolve(js, context, segments[..i])
    {
      ResolveNext(js, context, segments[..i], segments[i]);
      assert segments[..i + 1] == segments[..i] + [segments[i]];
      if found.Some? && found.value.Arr? {
        var index := js.toIndex(segments[i]);
        if index.None? {
          ResolveStaysUndefined(js, context, segments, i + 1);
          return None;
        }
        found := if 0 <= index.value < |found.value.items| then Some(found.value.items[index.value]) else None;
      } else if found.Some? && found.value.Obj? {
        found := Field(found.value.fields, segments[i]);
      } else {
        ResolveStaysUndefined(js, context, segments, i + 1);
        return None;
      }
    }
    assert segments[..|segments|] == segments;
  }

  lemma {:induction false} ResolveStaysUndefined(js: Js, value: Json, segments: seq<string>, k: nat)
    requires k <= |segments| && Resolve(js, value, segments[..k]).None?
    ensures Resolve(js, value, segments).None?
    decreases |segments| - k
  {
    if k == |segments| {
      assert segments[..k] == segments;
    } else {
      assert segments[..k + 1] == segments[..k] + [segments[k]];
      ResolveNext(js, value, segments[..k], segments[k]);
      ResolveStaysUndefined(js, value, segments, k + 1);
    }
  }

  /** `substituteSourcePlaceholders`; `None` is its exception. */
  function Substitute(js: Js, value: Json, context: Json): Option<Json>
    decreases value
  {
    match value
    case Str(s) => if IsPlaceholder(s) then Resolve(js, context, Split(s[|PLACEHOLDER|..], '.')) else Some(value)
    case Arr(items) =>
      if exists item <- items :: Substitute(js, item, context).None? then None
      else Some(Arr(seq(|items|, i requires 0 <= i < |items| => Substitute(js, items[i], context).value)))
    case Obj(fields) =>
      if exists key <- fields :: Substitute(js, fields[key], context).None? then None
      else Some(Obj(map key <- fields :: Substitute(js, fields[key], context).value))
    case _ => Some(value)
  }

  /** `s` is one of the strings inside the value; the keys of objects are not. */
  ghost predicate Occurs(s: string, value: Json)
    decreases value
  {
    match value
    case Str(x) => x == s
    case Arr(items) => exists item <- items :: Occurs(s, item)
    case Obj(fields) => exists key <- fields :: Occurs(s, fields[key])
    case _ => false
  }

  /** A placeholder inside the value that leads nowhere in the context. */
  ghost predicate Dangling(js: Js, context: Json, path: string, value: Json) {
    Occurs("$source." + path, value) && Resolve(js, context, Split(path, '.')).None?
  }

  lemma PlaceholderPath(s: string)
    ensures IsPlaceholder(s) <==> exists path :: s == "$source." + path
    ensures IsPlaceholder(s) ==> s == "$source." + s[8..] && s[8..] == s[|PLACEHOLDER|..]
  {
    if IsPlaceholder(s) {
      assert s == "$source." + s[8..];
    }
    if path :| s == "$source." + path {
      assert s[..8] == "$source.";
    }
  }

  /** A placeholder is replaced by what its path leads to. */
  lemma PlaceholderIsReplaced(js: Js, path: string, context: Json)
    ensures Substitute(js, Str("$source." + path), context) == Resolve(js, context, Split(path, '.'))
  {
    PlaceholderPath("$source." + path);
    assert ("$source." + path)[8..] == path;
  }

  /** Substitution is an exception exactly when some placeholder inside the value leads nowhere. */
  lemma {:induction false} SubstituteFails(js: Js, value: Json, context: Json)
    ensures Substitute(js, value, context).None? <==> exists path :: Dangling(js, context, path, value)
    decreases value
  {
    match value
    case Str(s) =>
      PlaceholderPath(s);
      if IsPlaceholder(s) {
        PlaceholderIsReplaced(js, s[8..], context);
        assert Dangling(js, context, s[8..], value) <==> Substitute(js, value, context).None?;
      }
      forall path | Dangling(js, context, path, value) ensures Substitute(js, value, context).None? {
        PlaceholderIsReplaced(js, path, context);
      }
    case Arr(items) =>
      forall item <- items
        ensures Substitute(js, item, context).None? <==> exists path :: Dangling(js, context, path, item)
      {
        SubstituteFails(js, item, context);
      }
      if item :| item in items && Substitute(js, item, context).None? {
        var path :| Dangling(js, context, path, item);
        assert Dangling(js, context, path, value);
      }
      forall path | Dangling(js, context, path, value) ensures Substitute(js, value, context).None? {
        var item :| item in items && Occurs("$source." + path, item);
        assert Dangling(js, context, path, item);
      }
    case Obj(fields) =>
      forall key <- fields
        ensures Substitute(js, fields[key], context).None? <==> exists path :: Dangling(js, context, path, fields[key])
      {
        SubstituteFails(js, fields[key], context);
      }
      if key :| key in fields && Substitute(js, fields[key], context).None? {
        var path :| Dangling(js, context, path, fields[key]);
        assert Dangling(js, context, path, value);
      }
      forall path | Dangling(js, context, path, value) ensures Substitute(js, value, context).None? {
        var key :| key in fields && Occurs("$source." + path, fields[key]);
        assert Dangling(js, context, path, fields[key]);
      }
    case _ =>
  }

  /** A value without placeholders is left as it is. */
  lemma {:induction false} SubstituteNothing(js: Js, value: Json, context: Json)
    requires forall path :: !Occurs("$source." + path, value)
    ensures Substitute(js, value, context) == Some(value)
    decreases value
  {
    match value
    case Str(s) => PlaceholderPath(s);
    case Arr(items) =>
      forall i | 0 <= i < |items| ensures Substitute(js, items[i], context) == Some(items[i]) {
        forall path ensures !Occurs("$source." + path, items[i]) {
          assert !Occurs("$source." + path, value);
        }
        SubstituteNothing(js, items[i], context);
      }
      assert Substitute(js, value, context).value.items == items;
    case Obj(fields) =>
      forall key <- fields ensures Substitute(js, fields[key], context) == Some(fields[key]) {
        forall path ensures !Occurs("$source." + path, fields[key]) {
          assert !Occurs("$source." + path, value);
        }
        SubstituteNothing(js, fields[key], context);
      }
      SubstituteUnchanged(js, fields, context);
    case _ =>
  }

  /** And an array is substituted item by item. */
  lemma SubstituteItem(js: Js, items: seq<Json>, i: nat, context: Json)
    requires Substitute(js, Arr(items), context).Some? && i < |items|
    ensures var r := Substitute(js, Arr(items), context).value; r.Arr? && |r.items| == |items| && Substitute(js, items[i], context) == Some(r.items[i])
  {
  }

  // ---- bundle ids ----------------------------------------------------------------------

  /** `[a-z0-9._/-]` */
  predicate IsIdChar(c: char) { IsSegmentChar(c) || c == '/' }

  /** Every run of other characters becomes one dash. */
  function Dashed(s: string, inRun: bool): string {
    if s == "" then ""
    else if IsIdChar(s[0]) then [s[0]] + Dashed(s[1..], false)
    else (if inRun then "" else "-") + Dashed(s[1..], true)
  }

  /** Every run of slashes becomes one. */
  function OneSlash(s: string, afterSlash: bool): string {
    if s == "" then ""
    else if s[0] == '/' then (if afterSlash then "" else "/") + OneSlash(s[1..], true)
    else [s[0]] + OneSlash(s[1..], false)
  }

  function TrimLeft(s: string): string {
    if s != "" && s[0] == '-' then TrimLeft(s[1..]) else s
  }

  function TrimRight(s: string): string {
    if s != "" && s[|s| - 1] == '-' then TrimRight(s[..|s| - 1]) else s
  }

  function SanitizeIdSuffix(s: string): string {
    TrimRight(TrimLeft(OneSlash(Dashed(Lower(s), false), false)))
  }

  ghost predicate IdChars(s: string) {
    && (forall c <- s :: IsIdChar(c))
    && (forall i | 0 <= i < |s| - 1 :: !(s[i] == '/' && s[i + 1] == '/'))
  }

  ghost predicate CleanSuffix(s: string) {
    IdChars(s) && (s != "" ==> s[0] != '-' && s[|s| - 1] != '-')
  }

  lemma {:induction false} DashedIsClean(s: string, inRun: bool)
    ensures forall c <- Dashed(s, inRun) :: IsIdChar(c)
    ensures (forall c <- s :: IsIdChar(c)) ==> Dashed(s, inRun) == s
  {
    if s != "" {
      DashedIsClean(s[1..], !IsIdChar(s[0]));
      assert s[0] in s && s == [s[0]] + s[1..];
    }
  }

  lemma {:induction false} OneSlashIsClean(s: string, afterSlash: bool)
    requires forall c <- s :: IsIdChar(c)
    ensures IdChars(OneSlash(s, afterSlash))
    ensures afterSlash && OneSlash(s, afterSlash) != "" ==> OneSlash(s, afterSlash)[0] != '/'
    ensures IdChars(s) && !(afterSlash && s != "" && s[0] == '/') ==> OneSlash(s, afterSlash) == s
  {
    if s != "" {
      OneSlashIsClean(s[1..], s[0] == '/');
      assert s[0] in s && s == [s[0]] + s[1..];
      if IdChars(s) {
        assert forall i | 0 <= i < |s[1..]| :: s[1..][i] == s[i + 1];
        assert IdChars(s[1..]);
      }
    }
  }

  lemma {:induction false} TrimsAreClean(s: string)
    requires IdChars(s)
    ensures IdChars(TrimLeft(s)) && (TrimLeft(s) != "" ==> TrimLeft(s)[0] != '-')
    decreases |s|
  {
    if s != "" && s[0] == '-' {
      assert forall i | 0 <= i < |s[1..]| :: s[1..][i] == s[i + 1];
      TrimsAreClean(s[1..]);
    }
  }

  lemma {:induction false} TrimRightIsClean(s: string)
    requires IdChars(s) && (s != "" ==> s[0] != '-')
    ensures CleanSuffix(TrimRight(s))
    decreases |s|
  {
    if s != "" && s[|s| - 1] == '-' {
      TrimRightIsClean(s[..|s| - 1]);
    }
  }

  /** A sanitised suffix is safe as a path: only `[a-z0-9._/-]`, no empty inner segment, no dash at either end. */
  lemma SanitizedIsClean(s: string)
    ensures CleanSuffix(SanitizeIdSuffix(s))
  {
    DashedIsClean(Lower(s), false);
    OneSlashIsClean(Dashed(Lower(s), false), false);
    TrimsAreClean(OneSlash(Dashed(Lower(s), false), false));
    TrimRightIsClean(TrimLeft(OneSlash(Dashed(Lower(s), false), false)));
  }

  /** And nothing that is already so is changed, so sanitising twice is sanitising once. */
  lemma CleanIsKept(s: string)
    requires CleanSuffix(s)
    ensures SanitizeIdSuffix(s) == s
  {
    forall i | 0 <= i < |s| ensures Lower(s)[i] == s[i] {
      assert s[i] in s;
    }
    assert Lower(s) == s;
    DashedIsClean(s, false);
    OneSlashIsClean(s, false);
  }

  /** The letters, digits, dots and underscores of a string. */
  function Kept(s: string): string {
    if s == "" then "" else (if IsIdChar(s[0]) && s[0] !in "-/" then [s[0]] else "") + Kept(s[1..])
  }

  lemma {:induction false} KeptConcat(a: string, b: string)
    ensures Kept(a + b) == Kept(a) + Kept(b)
  {
    if a == "" {
      assert a + b == b;
    } else {
      assert (a + b)[1..] == a[1..] + b;
      KeptConcat(a[1..], b);
    }
  }

  lemma {:induction false} DashedKeeps(s: string, inRun: bool)
    ensures Kept(Dashed(s, inRun)) == Kept(s)
  {
    if s != "" {
      DashedKeeps(s[1..], !IsIdChar(s[0]));
      KeptConcat([s[0]], Dashed(s[1..], false));
      KeptConcat("-", Dashed(s[1..], true));
      assert "-"[1..] == "" && "" + Dashed(s[1..], true) == Dashed(s[1..], true) && [s[0]][1..] == "";
    }
  }

  lemma {:induction false} OneSlashKeeps(s: string, afterSlash: bool)
    ensures Kept(OneSlash(s, afterSlash)) == Kept(s)
  {
    if s != "" {
      OneSlashKeeps(s[1..], s[0] == '/');
      KeptConcat([s[0]], OneSlash(s[1..], s[0] == '/'));
      assert "/"[1..] == "" && "" + OneSlash(s[1..], true) == OneSlash(s[1..], true) && [s[0]][1..] == "";
    }
  }

  lemma {:induction false} TrimLeftKeeps(s: string)
    ensures Kept(TrimLeft(s)) == Kept(s)
    decreases |s|
  {
    if s != "" && s[0] == '-' {
      TrimLeftKeeps(s[1..]);
    }
  }

  lemma {:induction false} TrimRightKeeps(s: string)
    ensures Kept(TrimRight(s)) == Kept(s)
    decreases |s|
  {
    if s != "" && s[|s| - 1] == '-' {
      TrimRightKeeps(s[..|s| - 1]);
      assert s == s[..|s| - 1] + "-" && "-"[1..] == "";
      KeptConcat(s[..|s| - 1], "-");
    }
  }

  /** Sanitising loses no letter, digit, dot or underscore and reorders none, whatever the suffix. */
  lemma SanitizeKeeps(s: string)
    ensures Kept(SanitizeIdSuffix(s)) == Kept(Lower(s))
  {
    DashedKeeps(Lower(s), false);
    OneSlashKeeps(Dashed(Lower(s), false), false);
    TrimLeftKeeps(OneSlash(Dashed(Lower(s), false), false));
    TrimRightKeeps(TrimLeft(OneSlash(Dashed(Lower(s), false), false)));
  }

  lemma {:induction false} DashedPast(a: string, rest: string, inRun: bool)
    requires forall c <- a :: IsIdChar(c)
    ensures Dashed(a + rest, inRun) == a + Dashed(rest, if a == "" then inRun else false)
    decreases |a|
  {
    if a == "" {
      assert a + rest == rest;
    } else {
      assert (a + rest)[1..] == a[1..] + rest && a[0] in a;
      DashedPast(a[1..], rest, false);
    }
  }

  lemma {:induction false} DashedRun(junk: string, rest: string)
    requires forall c <- junk :: !IsIdChar(c)
    ensures Dashed(junk + rest, true) == Dashed(rest, true)
    ensures junk != "" ==> Dashed(junk + rest, false) == "-" + Dashed(rest, true)
    decreases |junk|
  {
    if junk == "" {
      assert junk + rest == rest;
    } else {
      assert (junk + rest)[1..] == junk[1..] + rest && junk[0] in junk;
      DashedRun(junk[1..], rest);
    }
  }

  lemma {:induction false} OneSlashRun(slashes: string, rest: string)
    requires forall i | 0 <= i < |slashes| :: slashes[i] == '/'
    ensures OneSlash(slashes + rest, true) == OneSlash(rest, true)
    ensures slashes != "" ==> OneSlash(slashes + rest, false) == "/" + OneSlash(rest, true)
    decreases |slashes|
  {
    if slashes == "" {
      assert slashes + rest == rest;
    } else {
      OneSlashRun(slashes[1..], rest);
      assert slashes + rest == ['/'] + (slashes[1..] + rest);
    }
  }

  lemma {:induction false} OneSlashPast(a: string, rest: string, afterSlash: bool)
    requires IdChars(a) && a != "" && a[|a| - 1] != '/' && !(afterSlash && a[0] == '/')
    ensures OneSlash(a + rest, afterSlash) == a + OneSlash(rest, false)
    decreases |a|
  {
    assert (a + rest)[1..] == a[1..] + rest;
    if |a| == 1 {
      assert a[1..] + rest == rest;
    } else {
      assert forall i | 0 <= i < |a[1..]| :: a[1..][i] == a[i + 1];
      OneSlashPast(a[1..], rest, a[0] == '/');
    }
  }

  lemma LowerAround(a: string, middle: string, b: string)
    requires (forall c <- a :: IsIdChar(c)) && (forall c <- b :: IsIdChar(c))
    ensures Lower(a + middle + b) == a + (Lower(middle) + b)
  {
    var s := a + middle + b;
    assert |Lower(s)| == |a + (Lower(middle) + b)|;
    forall i | 0 <= i < |s| ensures Lower(s)[i] == (a + (Lower(middle) + b))[i] {
      if i < |a| {
        assert s[i] == a[i] && a[i] in a;
      } else if i < |a| + |middle| {
        assert s[i] == middle[i - |a|];
      } else {
        assert s[i] == b[i - |a| - |middle|] && b[i - |a| - |middle|] in b;
      }
    }
  }

  /** What is left of two clean parts and whatever was between them. */
  lemma CleanAround(a: string, joint: char, b: string, clean: string)
    requires clean == a + [joint] + b && CleanSuffix(clean)
    ensures (forall c <- a :: IsIdChar(c)) && (forall c <- b :: IsIdChar(c))
    ensures a + ([joint] + b) == clean
    ensures TrimRight(TrimLeft(OneSlash(clean, false))) == clean
  {
    InnerChars(a, [joint], b);
    CleanIsFixed(clean);
  }

  lemma InnerChars(a: string, middle: string, b: string)
    ensures forall c <- a :: c in a + middle + b
    ensures forall c <- b :: c in a + middle + b
    ensures a + (middle + b) == a + middle + b
  {
  }

  lemma CleanIsFixed(s: string)
    requires CleanSuffix(s)
    ensures TrimRight(TrimLeft(OneSlash(s, false))) == s
  {
    OneSlashIsClean(s, false);
  }

  /** Between two clean parts a run of other characters becomes one dash. */
  lemma JunkBecomesOneDash(a: string, junk: string, b: string)
    requires a != "" && b != "" && CleanSuffix(a + "-" + b)
    requires junk != "" && forall c <- Lower(junk) :: !IsIdChar(c)
    ensures SanitizeIdSuffix(a + junk + b) == a + "-" + b
  {
    var clean := a + "-" + b;
    CleanAround(a, '-', b, clean);
    LowerAround(a, junk, b);
    DashedPast(a, Lower(junk) + b, false);
    DashedRun(Lower(junk), b);
    DashedIsClean(b, true);
    assert Dashed(Lower(a + junk + b), false) == clean;
  }

  lemma DashedSlashes(a: string, slashes: string, b: string)
    requires (forall c <- a :: IsIdChar(c)) && (forall c <- b :: IsIdChar(c)) && (forall i | 0 <= i < |slashes| :: slashes[i] == '/')
    ensures Dashed(Lower(a + slashes + b), false) == a + (slashes + b)
  {
    LowerAround(a, slashes, b);
    assert forall i | 0 <= i < |slashes| :: Lower(slashes)[i] == slashes[i];
    assert Lower(slashes) == slashes;
    DashedIsClean(a + (slashes + b), false);
  }

  /** And a run of slashes becomes one slash. */
  lemma SlashesBecomeOne(a: string, slashes: string, b: string)
    requires a != "" && b != "" && CleanSuffix(a + "/" + b)
    requires slashes != "" && forall i | 0 <= i < |slashes| :: slashes[i] == '/'
    ensures SanitizeIdSuffix(a + slashes + b) == a + "/" + b
  {
    var clean := a + "/" + b;
    CleanAround(a, '/', b, clean);
    DashedSlashes(a, slashes, b);
    PartsOf(a, b, clean);
    OneSlashPast(a, slashes + b, false);
    OneSlashRun(slashes, b);
    OneSlashIsClean(b, true);
    assert OneSlash(a + (slashes + b), false) == clean;
  }

  lemma PartsOf(a: string, b: string, clean: string)
    requires clean == a + "/" + b && IdChars(clean) && a != "" && b != ""
    ensures IdChars(a) && IdChars(b) && a[|a| - 1] != '/' && b[0] != '/'
  {
    InnerChars(a, "/", b);
    assert clean[|a|] == '/' && clean[|a| - 1] == a[|a| - 1] && clean[|a| + 1] == b[0];
    assert forall i | 0 <= i < |a| :: clean[i] == a[i];
    forall i | 0 <= i < |b| - 1 ensures !(b[i] == '/' && b[i + 1] == '/') {
      assert clean[|a| + 1 + i] == b[i] && clean[|a| + 1 + i + 1] == b[i + 1];
    }
  }

  /** The suffix goes before the version of `name@version`; an empty suffix is an error. */
  function AppendIdSuffix(id: string, suffix: string): Option<string> {
    var clean := SanitizeIdSuffix(suffix);
    var k := AfterLast(id, '@');
    if clean == "" then None
    else if k == 0 then Some(id + "/" + clean)
    else Some(id[..k - 1] + "/" + clean + id[k - 1..])
  }

  /**
   The suffix goes between the name and the version; an id without a version gets it at the
   end; and it is an error exactly when nothing of it is left. Only the last `@` starts a version.
   */
  lemma SuffixGoesBeforeVersion(name: string, version: string, suffix: string)
    requires '@' !in version
    ensures AppendIdSuffix(name + "@" + version, suffix).None? <==> SanitizeIdSuffix(suffix) == ""
    ensures AppendIdSuffix(version, suffix).None? <==> SanitizeIdSuffix(suffix) == ""
    ensures CleanSuffix(suffix) && suffix != "" ==>
              && AppendIdSuffix(name + "@" + version, suffix) == Some(name + "/" + suffix + "@" + version)
              && AppendIdSuffix(version, suffix) == Some(version + "/" + suffix)
  {
    var id := name + "@" + version;
    var k := AfterLast(id, '@');
    assert id[|name|] == '@' && id[|name| + 1..] == version;
    assert k == |name| + 1;
    assert id[..k - 1] == name && id[k - 1..] == "@" + version;
    if CleanSuffix(suffix) {
      CleanIsKept(suffix);
      assert name + "/" + suffix + ("@" + version) == name + "/" + suffix + "@" + version;
    }
  }

  // ---- the two rebuilders --------------------------------------------------------------

  function Placed(rest: map<string, Json>, id: string, selector: string, chain: string, address: string): Json {
    Obj((rest - {"match", "source_materialize"})[
      "id" := Str(id)][
      "match" := Obj(map["selector" := Str(selector), "chain_to_addresses" := Obj(map[chain := Arr([Str(address)])])])])
  }

  predicate IsInteger(v: Option<Json>) {
    v.Some? && v.value.Num? && v.value.n.Floor as real == v.value.n
  }

  predicate IsText(v: Option<Json>) { v.Some? && v.value.Str? }

  predicate IsObject(v: Option<Json>) { v.Some? && v.value.Obj? }

  /** The proxy's `materializeSourceBundle`; `None` is any of its exceptions. */
  function MaterializeSourceBundle(js: Js, template: Json, doc: Json): Option<Json> {
    if !template.Obj? || !doc.Obj? || !IsObject(Field(doc.fields, "context")) then None
    else
      var context := doc.fields["context"];
      var substituted := Substitute(js, template, context);
      if substituted.None? then None
      else
        var fields := substituted.value.fields;
        if !IsObject(Field(fields, "match")) || !IsText(Field(fields["match"].fields, "selector")) then None
        else if !IsText(Field(fields, "id")) || !IsText(Field(context.fields, "id_suffix")) then None
        else if !IsText(Field(doc.fields, "address")) || !IsInteger(Field(doc.fields, "chain_id")) then None
        else
          var id := AppendIdSuffix(fields["id"].s, context.fields["id_suffix"].s);
          if id.None? then None
          else
            Some(Placed(fields, id.value, fields["match"].fields["selector"].s,
                        js.show(doc.fields["chain_id"].n), Lower(doc.fields["address"].s)))
  }

  datatype SourceEntry = SourceEntry(address: string, idSuffix: Option<string>, context: map<string, Json>)

  /** The builder's context: the route's own fields win over the resolver's. */
  function BuildSourceContext(js: Js, chain: real, entry: SourceEntry): map<string, Json> {
    entry.context["address" := Str(entry.address)]["chainId" := Num(chain)][
      "id_suffix" := Str(if entry.idSuffix.Some? then entry.idSuffix.value else js.show(chain) + "-" + entry.address)]
  }

  function AsText(js: Js, v: Option<Json>): string { if IsText(v) then v.value.s else js.coerce(v) }

  /** The builder's `buildMaterializedFromSource`. */
  function BuildMaterialized(js: Js, template: map<string, Json>, selector: string, chain: real, entry: SourceEntry): Option<Json> {
    var context := BuildSourceContext(js, chain, entry);
    var substituted := Substitute(js, Obj(template), Obj(context));
    if substituted.None? then None
    else
      var fields := substituted.value.fields;
      var id := AppendIdSuffix(AsText(js, Field(fields, "id")), AsText(js, Field(context, "id_suffix")));
      if id.None? then None else Some(Placed(fields, id.value, selector, js.show(chain), entry.address))
  }

  /** In the context of the placeholders the route's address, chain and suffix win over what the resolver supplied under those names. */
  lemma RouteFieldsWin(js: Js, chain: real, entry: SourceEntry)
    ensures var context := BuildSourceContext(js, chain, entry);
            && context.Keys == entry.context.Keys + {"address", "chainId", "id_suffix"}
            && (forall key <- entry.context :: key !in ["address", "chainId", "id_suffix"] ==> context[key] == entry.context[key])
            && context["address"] == Str(entry.address) && context["chainId"] == Num(chain)
            && context["id_suffix"] == Str(if entry.idSuffix.Some? then entry.idSuffix.value else js.show(chain) + "-" + entry.address)
  {
  }

  /**
   The bundle the builder makes for one address of a source: the template's own fields with
   their placeholders replaced, no trace of `source_materialize`, and a match that is this
   selector on this address of this chain only; a literal id gets the route's suffix.
   */
  lemma MaterializedIsForOneAddress(js: Js, template: map<string, Json>, selector: string, chain: real, entry: SourceEntry)
    requires BuildMaterialized(js, template, selector, chain, entry).Some?
    ensures var bundle := BuildMaterialized(js, template, selector, chain, entry).value;
            var context := BuildSourceContext(js, chain, entry);
            && bundle.Obj? && bundle.fields.Keys == template.Keys - {"source_materialize"} + {"id", "match"}
            && (forall key <- template :: key !in ["id", "match", "source_materialize"] ==>
                  Substitute(js, template[key], Obj(context)) == Some(bundle.fields[key]))
            && bundle.fields["match"] == Obj(map[
                 "selector" := Str(selector),
                 "chain_to_addresses" := Obj(map[js.show(chain) := Arr([Str(entry.address)])])])
            && (("id" in template && template["id"].Str? && !IsPlaceholder(template["id"].s)) ==>
                  exists id :: AppendIdSuffix(template["id"].s, context["id_suffix"].s) == Some(id) && bundle.fields["id"] == Str(id))
  {
    var context := BuildSourceContext(js, chain, entry);
    RouteFieldsWin(js, chain, entry);
    SubstitutedFields(js, template, Obj(context));
    var fields := Substitute(js, Obj(template), Obj(context)).value.fields;
    var id := AppendIdSuffix(AsText(js, Field(fields, "id")), AsText(js, Field(context, "id_suffix"))).value;
    PlacedFields(fields, id, selector, js.show(chain), entry.address);
  }

  lemma PlacedFields(rest: map<string, Json>, id: string, selector: string, chain: string, address: string)
    ensures var bundle := Placed(rest, id, selector, chain, address);
            && bundle.Obj? && bundle.fields.Keys == rest.Keys - {"source_materialize"} + {"id", "match"}
            && (forall key <- rest :: key !in ["id", "match", "source_materialize"] ==> bundle.fields[key] == rest[key])
            && bundle.fields["id"] == Str(id)
            && bundle.fields["match"] ==
               Obj(map["selector" := Str(selector), "chain_to_addresses" := Obj(map[chain := Arr([Str(address)])])])
  {
  }

  /** The context document the builder writes, with the address in lower case. */
  function DocumentOf(source: string, chain: real, address: string, context: Json): Json {
    Obj(map["schema_version" := Str("3-source-context"), "source" := Str(source), "chain_id" := Num(chain),
            "address" := Str(Lower(address)), "context" := context])
  }

  function ContextDocument(js: Js, source: string, chain: real, entry: SourceEntry): Json {
    DocumentOf(source, chain, entry.address, Obj(BuildSourceContext(js, chain, entry)))
  }

  function Sanitized(parts: seq<string>): seq<string> {
    if parts == [] then [] else [SanitizeIdSuffix(parts[0])] + Sanitized(parts[1..])
  }

  /** Nothing to split at. */
  lemma SplitWithout(s: string, c: char)
    requires c !in s
    ensures Split(s, c) == [s]
  {
  }

  function Joined(parts: seq<string>): string {
    if parts == [] then "" else parts[0] + "/" + Joined(parts[1..])
  }

  /** `sourceContextRef`: where the context of an address is written; `None` is its exception. */
  function SourceContextRef(source: string, chain: nat, address: string): Option<string> {
    var parts := Sanitized(Split(source, ':'));
    if "" in parts then None
    else Some("contexts/" + (Joined(parts) + Digits(chain) + "/" + Lower(address) + ".json"))
  }

  lemma CutAtLastSlash(a: string, b: string, c: string, d: string)
    requires a != "" && a[|a| - 1] == '/' && c != "" && c[|c| - 1] == '/' && '/' !in b && '/' !in d
    ensures a + b == c + d <==> a == c && b == d
  {
    if a + b == c + d {
      assert (a + b)[|a| - 1] == '/' && (c + d)[|c| - 1] == '/';
      assert a == (a + b)[..|a|] == c && b == (a + b)[|a|..] == d;
    }
  }

  lemma {:induction false} JoinedEndsInSlash(parts: seq<string>)
    requires parts != []
    ensures Joined(parts) != "" && Joined(parts)[|Joined(parts)| - 1] == '/'
    decreases |parts|
  {
    if |parts| > 1 {
      JoinedEndsInSlash(parts[1..]);
    }
  }

  /**
   A context reference names the chain and, without regard to case, the address; of the source
   only what sanitising leaves of its parts. Two routes share a file exactly when these agree.
   */
  lemma ContextRefNames(source: string, chain: nat, address: string, source': string, chain': nat, address': string)
    requires '/' !in address && '/' !in address'
    requires SourceContextRef(source, chain, address).Some? && SourceContextRef(source', chain', address').Some?
    ensures SourceContextRef(source, chain, address) == SourceContextRef(source', chain', address') <==>
            && Joined(Sanitized(Split(source, ':'))) == Joined(Sanitized(Split(source', ':')))
            && chain == chain' && Lower(address) == Lower(address')
  {
    var j, j' := Joined(Sanitized(Split(source, ':'))), Joined(Sanitized(Split(source', ':')));
    JoinedEndsInSlash(Sanitized(Split(source, ':')));
    JoinedEndsInSlash(Sanitized(Split(source', ':')));
    DigitsRoundTrip(chain);
    DigitsRoundTrip(chain');
    CutAtLastSlash(j, Digits(chain), j', Digits(chain'));
    NoSlash(address);
    NoSlash(address');
    RefParts(j + Digits(chain), Lower(address), j' + Digits(chain'), Lower(address'));
  }

  lemma NoSlash(address: string)
    requires '/' !in address
    ensures '/' !in Lower(address)
  {
  }

  lemma RefParts(head: string, address: string, head': string, address': string)
    requires '/' !in address && '/' !in address'
    ensures "contexts/" + (head + "/" + address + ".json") == "contexts/" + (head' + "/" + address' + ".json") <==>
            head == head' && address == address'
  {
    var tail, tail' := address + ".json", address' + ".json";
    CutAtLastSlash(head + "/", tail, head' + "/", tail');
    assert head + "/" + address + ".json" == (head + "/") + tail && head' + "/" + address' + ".json" == (head' + "/") + tail';
    DropFront("contexts/", (head + "/") + tail, (head' + "/") + tail');
    DropEnd(head, "/", head');
    DropEnd(address, ".json", address');
  }

  lemma DropFront(front: string, a: string, b: string)
    ensures front + a == front + b <==> a == b
  {
    assert (front + a)[|front|..] == a && (front + b)[|front|..] == b;
  }

  lemma DropEnd(a: string, end: string, b: string)
    ensures a + end == b + end <==> a == b
  {
    assert (a + end)[..|a + end| - |end|] == a && (b + end)[..|b + end| - |end|] == b;
  }

  // ---- they agree ----------------------------------------------------------------------

  lemma SubstituteKeepsHex(js: Js, s: string, n: nat, context: Json)
    requires IsAnyHexWord(s, n)
    ensures Substitute(js, Str(s), context) == Some(Str(s))
  {
    assert s[0] == '0' by { assert s[..2][0] == "0x"[0]; }
  }

  /** A field of an object is substituted on its own. */
  lemma SubstituteField(js: Js, fields: map<string, Json>, key: string, context: Json)
    requires Substitute(js, Obj(fields), context).Some? && key in fields
    ensures Substitute(js, Obj(fields), context).value.Obj? && key in Substitute(js, Obj(fields), context).value.fields
    ensures Substitute(js, fields[key], context) == Some(Substitute(js, Obj(fields), context).value.fields[key])
  {
  }

  /** An object whose fields are all left alone is left alone. */
  lemma SubstituteUnchanged(js: Js, fields: map<string, Json>, context: Json)
    requires forall key <- fields :: Substitute(js, fields[key], context) == Some(fields[key])
    ensures Substitute(js, Obj(fields), context) == Some(Obj(fields))
  {
    assert Substitute(js, Obj(fields), context).value.fields == fields;
  }

  /** Two placed bundles that differ at most in the address are equal exactly when it is the same. */
  lemma PlacedAddress(rest: map<string, Json>, id: string, selector: string, chain: string, a: string, b: string)
    ensures Placed(rest, id, selector, chain, a) == Placed(rest, id, selector, chain, b) <==> a == b
  {
    var p, q := Placed(rest, id, selector, chain, a), Placed(rest, id, selector, chain, b);
    if p == q {
      var m, n := p.fields["match"], q.fields["match"];
      assert m.fields["chain_to_addresses"].fields[chain].items[0] == n.fields["chain_to_addresses"].fields[chain].items[0];
    }
  }

  /** Whether the template's id is still a string once its placeholders are replaced. */
  predicate IdStaysText(js: Js, template: map<string, Json>, context: Json)
    requires "id" in template
  {
    IsText(Substitute(js, template["id"], context))
  }

  /**
   From the template and context document the builder writes, the proxy rebuilds the builder's
   own bundle exactly when the id is still a string and the resolver gave the address in lower
   case. When only the address is at fault it rebuilds a different bundle.
   */
  lemma ContextRoundTrip(js: Js, template: map<string, Json>, selector: string, source: string, chain: real, entry: SourceEntry)
    requires IsObject(Field(template, "match")) && Field(template["match"].fields, "selector") == Some(Str(selector))
    requires IsAnyHexWord(selector, 8) && chain.Floor as real == chain && "id" in template
    requires BuildMaterialized(js, template, selector, chain, entry).Some?
    ensures var rebuilt := MaterializeSourceBundle(js, Obj(template), ContextDocument(js, source, chain, entry));
            var sound := IdStaysText(js, template, Obj(BuildSourceContext(js, chain, entry)));
            && (rebuilt.Some? <==> sound)
            && (rebuilt == BuildMaterialized(js, template, selector, chain, entry) <==> sound && Lower(entry.address) == entry.address)
  {
    var context := Obj(BuildSourceContext(js, chain, entry));
    var fields := Substitute(js, Obj(template), context).value.fields;
    SubstituteField(js, template, "id", context);
    ProxyRebuilds(js, template, selector, source, chain, entry);
    if fields["id"].Str? {
      var id := AppendIdSuffix(fields["id"].s, context.fields["id_suffix"].s).value;
      PlacedAddress(fields, id, selector, js.show(chain), Lower(entry.address), entry.address);
    }
  }

  /** What the proxy makes of the builder's template and document. */
  lemma ProxyRebuilds(js: Js, template: map<string, Json>, selector: string, source: string, chain: real, entry: SourceEntry)
    requires IsObject(Field(template, "match")) && Field(template["match"].fields, "selector") == Some(Str(selector))
    requires IsAnyHexWord(selector, 8) && chain.Floor as real == chain && "id" in template
    requires Substitute(js, Obj(template), Obj(BuildSourceContext(js, chain, entry))).Some?
    ensures var context := BuildSourceContext(js, chain, entry);
            var fields := Substitute(js, Obj(template), Obj(context)).value.fields;
            MaterializeSourceBundle(js, Obj(template), ContextDocument(js, source, chain, entry)) ==
            if !IsText(Field(fields, "id")) then None
            else
              var id := AppendIdSuffix(fields["id"].s, context["id_suffix"].s);
              if id.None? then None else Some(Placed(fields, id.value, selector, js.show(chain), Lower(entry.address)))
  {
    var context := Obj(BuildSourceContext(js, chain, entry));
    SubstituteField(js, template, "match", context);
    SubstituteField(js, template["match"].fields, "selector", context);
    SubstituteKeepsHex(js, selector, 8, context);
    DocumentFields(source, chain, entry.address, context);
    LowerIsIdempotent(entry.address);
  }

  /**
   On any template and any document: what the proxy rebuilds is for the chain and address of
   that document only, and it refuses exactly a document or template without the parts this
   needs, a placeholder that leads nowhere, or a suffix of which sanitising leaves nothing.
   */
  lemma RebuiltIsForTheDocument(js: Js, template: map<string, Json>, doc: map<string, Json>, context: Json)
    ensures Field(doc, "context").None? ==> MaterializeSourceBundle(js, Obj(template), Obj(doc)).None?
    ensures Field(doc, "context") == Some(context) ==>
            var rebuilt := MaterializeSourceBundle(js, Obj(template), Obj(doc));
            && (rebuilt.Some? <==>
                  && context.Obj? && IsText(Field(doc, "address")) && IsInteger(Field(doc, "chain_id"))
                  && IsText(Field(context.fields, "id_suffix")) && SanitizeIdSuffix(context.fields["id_suffix"].s) != ""
                  && !(exists path :: Dangling(js, context, path, Obj(template)))
                  && "id" in template && IsText(Substitute(js, template["id"], context))
                  && "match" in template && HasSelector(Substitute(js, template["match"], context)))
            && (rebuilt.Some? ==>
                  && rebuilt.value.Obj? && "match" in rebuilt.value.fields
                  && rebuilt.value.fields["match"] == Obj(map[
                       "selector" := Substitute(js, template["match"], context).value.fields["selector"],
                       "chain_to_addresses" := Obj(map[js.show(doc["chain_id"].n) := Arr([Str(Lower(doc["address"].s))])])]))
  {
    SubstituteFails(js, Obj(template), context);
    if Substitute(js, Obj(template), context).Some? {
      SubstitutedFields(js, template, context);
    }
  }

  predicate HasSelector(v: Option<Json>) {
    IsObject(v) && IsText(Field(v.value.fields, "selector"))
  }

  lemma SubstitutedFields(js: Js, template: map<string, Json>, context: Json)
    requires Substitute(js, Obj(template), context).Some?
    ensures var fields := Substitute(js, Obj(template), context).value.fields;
            && fields.Keys == template.Keys
            && (forall key <- template :: Substitute(js, template[key], context) == Some(fields[key]))
  {
    forall key <- template
      ensures Substitute(js, template[key], context) == Some(Substitute(js, Obj(template), context).value.fields[key])
    {
      SubstituteField(js, template, key, context);
    }
  }

  /** The context document names its source, chain and address, the last in lower case, and carries the context as it is. */
  lemma DocumentFields(source: string, chain: real, address: string, context: Json)
    ensures var doc := DocumentOf(source, chain, address, context).fields;
            && doc.Keys == {"schema_version", "source", "chain_id", "address", "context"}
            && doc["schema_version"] == Str("3-source-context") && doc["source"] == Str(source)
            && Field(doc, "context") == Some(context) && Field(doc, "chain_id") == Some(Num(chain))
            && Field(doc, "address") == Some(Str(Lower(address)))
  {
  }

  lemma LowerIsIdempotent(s: string)
    ensures Lower(Lower(s)) == Lower(s)
  {
  }

  // ---- where they do not ---------------------------------------------------------------

  const SELECTOR := "0x00000000"
  const MIXED_CASE := "0xAaaaaaaaaaaaaaaaaaaaaaaaaaaaaaaaaaaaaaaa"

  /** A template with nothing but an id and a selector. */
  function SmallTemplate(id: string, selector: string): map<string, Json> {
    map["id" := Str(id), "match" := Obj(map["selector" := Str(selector)])]
  }

  lemma SmallTemplateIsBuilt(js: Js, id: string, selector: string, entry: SourceEntry, context: map<string, Json>)
    requires IsAnyHexWord(selector, 8) && entry.idSuffix == Some("x") && context == BuildSourceContext(js, 1.0, entry)
    requires Substitute(js, Str(id), Obj(context)).Some?
    ensures BuildMaterialized(js, SmallTemplate(id, selector), selector, 1.0, entry).Some?
  {
    var template := SmallTemplate(id, selector);
    SubstituteKeepsHex(js, selector, 8, Obj(context));
    assert Substitute(js, template["match"], Obj(context)).Some?;
    assert forall key <- template :: key == "id" || key == "match";
    assert Substitute(js, Obj(template), Obj(context)).Some?;
    CleanIsKept("x");
    assert context["id_suffix"] == Str("x");
  }

  lemma CapitalsAreRebuiltDifferently(js: Js, id: string, selector: string, source: string, entry: SourceEntry)
    requires IsAnyHexWord(selector, 8) && !IsPlaceholder(id) && entry.idSuffix == Some("x") && Lower(entry.address) != entry.address
    ensures var built := BuildMaterialized(js, SmallTemplate(id, selector), selector, 1.0, entry);
            var rebuilt := MaterializeSourceBundle(js, Obj(SmallTemplate(id, selector)), ContextDocument(js, source, 1.0, entry));
            built.Some? && rebuilt.Some? && rebuilt != built
  {
    SmallTemplateIsBuilt(js, id, selector, entry, BuildSourceContext(js, 1.0, entry));
    ContextRoundTrip(js, SmallTemplate(id, selector), selector, source, 1.0, entry);
  }

  lemma SelectorIsHex()
    ensures IsAnyHexWord(SELECTOR, 8)
  {
  }

  lemma MixedCaseHasCapitals()
    ensures Lower(MIXED_CASE) != MIXED_CASE
  {
    assert MIXED_CASE[2] == 'A' && Lower(MIXED_CASE)[2] == 'a';
  }

  /** A resolver that returned an address with a capital: both sides make a bundle, and they differ. */
  lemma MixedCaseIsRebuiltDifferently(js: Js, entry: SourceEntry)
    requires entry == SourceEntry(MIXED_CASE, Some("x"), map[])
    ensures var built := BuildMaterialized(js, SmallTemplate("pool", SELECTOR), SELECTOR, 1.0, entry);
            var rebuilt := MaterializeSourceBundle(js, Obj(SmallTemplate("pool", SELECTOR)), ContextDocument(js, "pool:v", 1.0, entry));
            built.Some? && rebuilt.Some? && rebuilt != built
  {
    MixedCaseHasCapitals();
    SelectorIsHex();
    CapitalsAreRebuiltDifferently(js, "pool", SELECTOR, "pool:v", entry);
  }

  /** A placeholder for one field of the context. */
  lemma FieldPlaceholder(js: Js, context: map<string, Json>, prefix: string, name: string)
    requires prefix == PLACEHOLDER && '.' !in name
    ensures Substitute(js, Str(prefix + name), Obj(context)) == Field(context, name)
  {
    var s := prefix + name;
    assert s[..|prefix|] == prefix && s[|prefix|..] == name;
    SplitWithout(name, '.');
    assert IsPlaceholder(s);
    ResolveOne(js, context, name);
  }

  lemma ResolveOne(js: Js, context: map<string, Json>, name: string)
    ensures Resolve(js, Obj(context), [name]) == Field(context, name)
  {
    assert [name][1..] == [];
    var found := Field(context, name);
    assert found.Some? ==> Resolve(js, found.value, []) == found;
  }

  /** A template whose id is a placeholder for a number: for every address the builder writes a bundle, and the proxy refuses to rebuild it. */
  lemma NumericIdIsNotRebuilt(js: Js, address: string, entry: SourceEntry)
    requires IsHexWord(address, 40) && entry == SourceEntry(address, Some("x"), map["n" := Num(1.0)])
    ensures && BuildMaterialized(js, SmallTemplate(PLACEHOLDER + "n", SELECTOR), SELECTOR, 1.0, entry).Some?
            && MaterializeSourceBundle(js, Obj(SmallTemplate(PLACEHOLDER + "n", SELECTOR)), ContextDocument(js, "pool:v", 1.0, entry)).None?
  {
    var context := BuildSourceContext(js, 1.0, entry);
    assert Field(context, "n") == Some(Num(1.0));
    FieldPlaceholder(js, context, PLACEHOLDER, "n");
    SelectorIsHex();
    NumberIdFails(js, PLACEHOLDER + "n", SELECTOR, "pool:v", entry);
  }

  lemma NumberIdFails(js: Js, id: string, selector: string, source: string, entry: SourceEntry)
    requires IsAnyHexWord(selector, 8) && entry.idSuffix == Some("x")
    requires Substitute(js, Str(id), Obj(BuildSourceContext(js, 1.0, entry))) == Some(Num(1.0))
    ensures && BuildMaterialized(js, SmallTemplate(id, selector), selector, 1.0, entry).Some?
            && MaterializeSourceBundle(js, Obj(SmallTemplate(id, selector)), ContextDocument(js, source, 1.0, entry)).None?
  {
    SmallTemplateIsBuilt(js, id, selector, entry, BuildSourceContext(js, 1.0, entry));
    ContextRoundTrip(js, SmallTemplate(id, selector), selector, source, 1.0, entry);
  }
}
