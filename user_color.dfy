/**
 * Username colours (src/utils/userColor.ts): the djb2 string hash with
 * JavaScript's 32-bit shift, palette selection with exclusions, the memo
 * cache, greedy distinct assignment for a list of names, and the
 * black-or-white contrast rule.
 */
module UserColor {
  import opened Wrappers
  import opened JsText

  datatype Theme = Default | Light | Dark

  /** The theme's name as it appears in a cache key. */
  function ThemeName(t: Theme): string {
    match t
    case Default => "default"
    case Light => "light"
    case Dark => "dark"
  }

  // ------------------------------------------------------- colour notation

  /** The lower-case hexadecimal digit for a value below 16. */
  function HexChar(d: int): (c: char)
    requires 0 <= d < 16
    ensures HexDigit(c) == Some(d)
  {
    if d < 10 then ('0' as int + d) as char else ('a' as int + d - 10) as char
  }

  function Pow16(k: nat): nat {
    if k == 0 then 1 else 16 * Pow16(k - 1)
  }

  /** The last `k` hexadecimal digits of `n`, most significant first. */
  function HexDigits(n: nat, k: nat): (s: string)
    ensures |s| == k
    ensures forall i :: 0 <= i < k ==> HexDigit(s[i]).Some?
    decreases k
  {
    if k == 0 then [] else HexDigits(n / 16, k - 1) + [HexChar(n % 16)]
  }

  /** Numbers below 16^k have different k-digit spellings. */
  lemma {:induction false} HexDigitsInjective(a: nat, b: nat, k: nat)
    requires a < Pow16(k) && b < Pow16(k) && HexDigits(a, k) == HexDigits(b, k)
    ensures a == b
    decreases k
  {
    if k > 0 {
      var s, t := HexDigits(a, k), HexDigits(b, k);
      assert HexDigit(s[k - 1]) == Some(a % 16) && HexDigit(t[k - 1]) == Some(b % 16);
      assert s[..k - 1] == HexDigits(a / 16, k - 1) && t[..k - 1] == HexDigits(b / 16, k - 1);
      HexDigitsInjective(a / 16, b / 16, k - 1);
    }
  }

  /** The colour 0xRRGGBB written "#rrggbb", as the palettes write it. */
  function HexColor(rgb: nat): (s: string)
    ensures |s| == 7 && s[0] == '#'
    ensures forall i :: 1 <= i < 7 ==> HexDigit(s[i]).Some?
  {
    "#" + HexDigits(rgb, 6)
  }

  /** Different 24-bit colours are written differently. */
  lemma HexColorInjective(a: nat, b: nat)
    requires a < 0x100_0000 && b < 0x100_0000 && HexColor(a) == HexColor(b)
    ensures a == b
  {
    assert HexColor(a)[1..] == HexDigits(a, 6) && HexColor(b)[1..] == HexDigits(b, 6);
    assert Pow16(6) == 0x100_0000;
    HexDigitsInjective(a, b, 6);
  }

  // --------------------------------------------------------------- palettes

  /** `COLOR_PALETTES`, each colour as its 0xRRGGBB value. */
  const DefaultCodes: seq<nat> := [
    0x1976d2, 0x388e3c, 0xf57c00, 0x7b1fa2, 0xc2185b, 0x00796b, 0x5d4037, 0x455a64,
    0xe64a19, 0x303f9f, 0x689f38, 0xfbc02d, 0x512da8, 0x0288d1, 0xd32f2f, 0xf57f17]

  const LightCodes: seq<nat> := [
    0x42a5f5, 0x66bb6a, 0xff7043, 0xab47bc, 0xec407a, 0x26a69a, 0x8d6e63, 0x78909c,
    0xffa726, 0x5c6bc0, 0x9ccc65, 0xffca28, 0x7e57c2, 0x29b6f6, 0xef5350, 0xd4e157]

  const DarkCodes: seq<nat> := [
    0x1565c0, 0x2e7d32, 0xef6c00, 0x6a1b9a, 0xad1457, 0x00695c, 0x4e342e, 0x37474f,
    0xe65100, 0x283593, 0x558b2f, 0xf9a825, 0x4527a0, 0x0277bd, 0xc62828, 0x827717]

  /** The sixteen colour values of a theme. */
  function Codes(t: Theme): (c: seq<nat>)
    ensures |c| == 16
  {
    match t
    case Default => DefaultCodes
    case Light => LightCodes
    case Dark => DarkCodes
  }

  /** Every colour value is a 24-bit colour other than black, and no value repeats. */
  lemma CodesWellFormed(t: Theme)
    ensures forall i :: 0 <= i < 16 ==> 0 < Codes(t)[i] < 0x100_0000
    ensures forall i, j :: 0 <= i < j < 16 ==> Codes(t)[i] != Codes(t)[j]
  {
  }

  /** `COLOR_PALETTES[theme]`: sixteen seven-character colours "#rrggbb". */
  function Palette(t: Theme): (p: seq<string>)
    ensures |p| == 16
  {
    seq(16, i requires 0 <= i < 16 => HexColor(Codes(t)[i]))
  }

  // ---------------------------------------------------------------- hashing

  const TwoTo31: int := 0x8000_0000
  const TwoTo32: int := 0x1_0000_0000

  /** ECMAScript ToInt32: `x` taken modulo 2^32 into the signed 32-bit range. */
  function ToInt32(x: int): (r: int)
    ensures -TwoTo31 <= r < TwoTo31
  {
    var m := x % TwoTo32;
    if m >= TwoTo31 then m - TwoTo32 else m
  }

  /** ToInt32 keeps the value modulo 2^32 and does nothing to a value already in range. */
  lemma ToInt32Congruent(x: int)
    ensures (x - ToInt32(x)) % TwoTo32 == 0
    ensures -TwoTo31 <= x < TwoTo31 ==> ToInt32(x) == x
  {
  }

  /** `hash << 5`: both the operand and the result are taken to 32 bits. */
  function ShiftLeft5(hash: int): int {
    ToInt32(ToInt32(hash) * 32)
  }

  /** The loop body `hash = ((hash << 5) + hash) + code`; the additions are exact, not 32-bit. */
  function Djb2Step(hash: int, code: int): int {
    ShiftLeft5(hash) + hash + code
  }

  /** The hash after the code units `units`, continuing from `hash`; before `Math.abs`. */
  function Djb2From(hash: int, units: seq<int>): int
    decreases |units|
  {
    if units == [] then hash else Djb2From(Djb2Step(hash, units[0]), units[1..])
  }

  /** `djb2Hash(str)` as a value. */
  function Djb2(s: string): nat {
    var h := Djb2From(5381, Utf16(s));
    if h < 0 then -h else h
  }

  /** `djb2Hash`: the loop over the code units of `str`; the result is never negative. */
  method Djb2Hash(s: string) returns (h: nat)
    ensures h == Djb2(s)
  {
    var units := Utf16(s);
    var hash := 5381;
    var i := 0;
    while i < |units|
      invariant 0 <= i <= |units|
      invariant Djb2From(hash, units[i..]) == Djb2From(5381, units)
    {
      assert units[i..][1..] == units[i + 1..];
      hash := ((ShiftLeft5(hash)) + hash) + units[i];
      i := i + 1;
    }
    h := if hash < 0 then -hash else hash;
  }

  // ------------------------------------------------------ palette selection

  /** The members of a list, as `includes` and `has` see them. */
  function SetOf(xs: seq<string>): set<string> {
    set x | x in xs
  }

  /** `colors.filter(c => !excluded(c))`: the colours outside `excluded`, in palette order. */
  function Without(colors: seq<string>, excluded: set<string>): (r: seq<string>)
    ensures forall c :: c in r <==> c in colors && c !in excluded
    ensures |r| <= |colors|
    ensures (forall c :: c in colors ==> c !in excluded) ==> r == colors
    decreases |colors|
  {
    if colors == [] then []
    else (if colors[0] in excluded then [] else [colors[0]]) + Without(colors[1..], excluded)
  }

  /**
   * The colour `getUserColor` computes (lines 73-97): the first palette
   * colour for a blank name; otherwise the hash of the normalised name picks
   * among the colours not excluded, or among the whole palette when every
   * colour is excluded.
   */
  function ColorFor(username: string, theme: Theme, exclude: seq<string>): (c: string)
    ensures c in Palette(theme)
    ensures Trim(username) == "" ==> c == Palette(theme)[0]
    ensures Trim(username) != "" && (exists p :: p in Palette(theme) && p !in exclude) ==> c !in exclude
  {
    if Trim(username) == "" then Palette(theme)[0]
    else
      var available := Without(Palette(theme), SetOf(exclude));
      var colors := if available == [] then Palette(theme) else available;
      colors[Djb2(Normalize(username)) % |colors|]
  }

  /** When some palette colour is allowed, a non-blank name never gets an excluded colour. */
  lemma ColorForAvoids(username: string, theme: Theme, exclude: seq<string>, allowed: string, c: string)
    requires Trim(username) != "" && allowed in Palette(theme) && allowed !in exclude && c in exclude
    ensures ColorFor(username, theme, exclude) != c
  {
  }

  /** Names equal after lower-casing and trimming get the same colour, under the same theme and exclusions. */
  lemma SameNormalFormSameColor(a: string, b: string, theme: Theme, exclude: seq<string>)
    requires Normalize(a) == Normalize(b)
    ensures ColorFor(a, theme, exclude) == ColorFor(b, theme, exclude)
  {
    NormalizeBlank(a);
    NormalizeBlank(b);
  }

  // ------------------------------------------------------------- the cache

  ghost predicate Distinct<T>(s: seq<T>) {
    forall i, j :: 0 <= i < j < |s| ==> s[i] != s[j]
  }

  /** A list without repetitions has as many members as elements. */
  lemma {:induction false} DistinctCard<T>(s: seq<T>)
    requires Distinct(s)
    ensures |set x | x in s| == |s|
    decreases |s|
  {
    if s != [] {
      var rest := s[1..];
      DistinctCard(rest);
      assert (set x | x in s) == {s[0]} + (set x | x in rest);
      assert s[0] !in rest;
    }
  }

  /** A cache entry's identity: the full argument triple of `getUserColor`. */
  datatype CacheKey = CacheKey(username: string, theme: Theme, exclude: seq<string>)

  /** Every cached colour is the one its arguments select. */
  ghost predicate EntriesCorrect(entries: map<CacheKey, string>) {
    forall k :: k in entries ==> entries[k] == ColorFor(k.username, k.theme, k.exclude)
  }

  /** `order` lists every key of `m` exactly once. */
  ghost predicate ListsKeys(order: seq<CacheKey>, m: map<CacheKey, string>) {
    (forall k :: k in m <==> k in order) && Distinct(order)
  }

  /** Recording a new key with its selected colour keeps every entry correct. */
  lemma EntriesCorrectInsert(entries: map<CacheKey, string>, key: CacheKey, c: string)
    requires EntriesCorrect(entries) && c == ColorFor(key.username, key.theme, key.exclude)
    ensures EntriesCorrect(entries[key := c])
  {
  }

  /** Appending a new key to the insertion order keeps it an exact key list. */
  lemma ListsKeysInsert(order: seq<CacheKey>, entries: map<CacheKey, string>, key: CacheKey, c: string)
    requires ListsKeys(order, entries) && key !in entries
    ensures ListsKeys(order + [key], entries[key := c])
  {
    var order' := order + [key];
    forall k ensures k in entries[key := c] <==> k in order' {
      assert k in order' <==> k in order || k == key;
    }
    forall i, j | 0 <= i < j < |order'| ensures order'[i] != order'[j] {
      if j == |order| {
        assert order'[i] == order[i] && order[i] in entries;
      }
    }
  }

  /** Writing a key's own value back leaves a map as it was. */
  lemma RewriteSame(m: map<CacheKey, string>, key: CacheKey)
    requires key in m
    ensures m[key := m[key]] == m
  {
  }

  /** A key list without repetitions is as long as the map is large. */
  lemma ListsKeysCount(order: seq<CacheKey>, m: map<CacheKey, string>)
    requires ListsKeys(order, m)
    ensures |order| == |m|
  {
    DistinctCard(order);
    assert m.Keys == set k | k in order;
  }

  /** `getColorCacheStats()`. */
  datatype CacheStats = CacheStats(size: nat, keys: seq<CacheKey>)

  /** The module-level `colorCache`: its entries, and its keys in insertion order (the `Map`'s iteration order). */
  class ColorCache {
    var entries: map<CacheKey, string>
    var order: seq<CacheKey>

    /** Every entry holds the colour its arguments select, and `order` lists each key once. */
    ghost predicate Valid()
      reads this
    {
      EntriesCorrect(entries) && ListsKeys(order, entries)
    }

    constructor ()
      ensures Valid() && entries == map[] && order == []
    {
      entries := map[];
      order := [];
    }

    /**
     * `getUserColor`: the selected colour, served from the cache when the
     * arguments were seen before, and recorded otherwise. A blank name is
     * answered without touching the cache.
     */
    method GetUserColor(username: string, theme: Theme, exclude: seq<string>) returns (c: string)
      requires Valid()
      modifies this
      ensures Valid()
      ensures c == ColorFor(username, theme, exclude)
      ensures Trim(username) == "" ==> entries == old(entries) && order == old(order)
      ensures Trim(username) != "" ==>
        var key := CacheKey(username, theme, exclude);
        && entries == old(entries)[key := c]
        && order == if key in old(entries) then old(order) else old(order) + [key]
    {
      if username == "" || |Trim(username)| == 0 {
        return Palette(theme)[0];
      }
      var key := CacheKey(username, theme, exclude);
      if key in entries {
        RewriteSame(entries, key);
        return entries[key];
      }
      c := SelectColor(username, theme, exclude);
      Record(key, c);
    }

    /** A cache miss, lines 86-97: filter the palette, fall back to all of it, and index by the hash. */
    static method SelectColor(username: string, theme: Theme, exclude: seq<string>) returns (c: string)
      requires Trim(username) != ""
      ensures c == ColorFor(username, theme, exclude)
    {
      var colors := Without(Palette(theme), SetOf(exclude));
      if |colors| == 0 {
        colors := Palette(theme);
      }
      var hash := Djb2Hash(Normalize(username));
      c := colors[hash % |colors|];
    }

    /** `colorCache.set(cacheKey, selectedColor)` for a key not cached yet: a new entry, last in order. */
    method Record(key: CacheKey, c: string)
      requires Valid() && key !in entries && c == ColorFor(key.username, key.theme, key.exclude)
      modifies this
      ensures Valid() && entries == old(entries)[key := c] && order == old(order) + [key]
    {
      EntriesCorrectInsert(entries, key, c);
      ListsKeysInsert(order, entries, key, c);
      entries := entries[key := c];
      order := order + [key];
    }

    /** `clearColorCache`: the cache becomes empty. */
    method Clear()
      modifies this
      ensures Valid() && entries == map[] && order == []
    {
      entries := map[];
      order := [];
    }

    /** The insertion-order list has exactly as many elements as the cache has entries. */
    lemma OrderMatchesEntries()
      requires Valid()
      ensures |order| == |entries|
    {
      ListsKeysCount(order, entries);
    }

    /** `getColorCacheStats`: the number of entries, and every key once, in insertion order. */
    function Stats(): (s: CacheStats)
      reads this
      requires Valid()
      ensures s.size == |entries|
      ensures forall k :: k in s.keys <==> k in entries
      ensures Distinct(s.keys)
    {
      OrderMatchesEntries();
      CacheStats(|order|, order)
    }

    /**
     * The state of the loop in `getMultipleUserColors` after `i` names: the
     * record and `usedColors` as the specification builds them, and the cache
     * grown from `(entries0, order0)` by fallback keys only.
     */
    ghost predicate Assigned(result: map<string, string>, used: set<string>, usernames: seq<string>, i: nat, theme: Theme,
                             entries0: map<CacheKey, string>, order0: seq<CacheKey>)
      reads this
    {
      && Valid() && i <= |usernames| && Assignment(result, used) == AssignPrefix(usernames, i, theme)
      && Grown(entries0, order0, entries, order, usernames, theme)
    }

    /**
     * One iteration of the loop in `getMultipleUserColors`: the name takes an
     * unused colour by its hash while one is left, and otherwise asks
     * `GetUserColor` with no exclusions, which may add a cache entry.
     */
    method AssignOne(result: map<string, string>, used: set<string>, usernames: seq<string>, i: nat, theme: Theme,
                     ghost entries0: map<CacheKey, string>, ghost order0: seq<CacheKey>)
      returns (result': map<string, string>, used': set<string>)
      requires i < |usernames| && Assigned(result, used, usernames, i, theme, entries0, order0)
      modifies this
      ensures Assigned(result', used', usernames, i + 1, theme, entries0, order0)
      ensures old(entries).Keys <= entries.Keys
      ensures forall k :: k in entries && k !in old(entries) ==> k == CacheKey(usernames[i], theme, [])
      ensures order == old(order) || order == old(order) + [CacheKey(usernames[i], theme, [])]
      ensures HasUnused(used, theme) ==> entries == old(entries) && order == old(order)
      ensures |usernames| <= 16 ==> entries == old(entries) && order == old(order)
    {
      if |usernames| <= 16 {
        UnusedWhileFew(usernames, i, theme);
      }
      var username := usernames[i];
      AssignPrefixStep(usernames, i, theme);
      var available := Without(Palette(theme), used);
      if |available| > 0 {
        var hash := Djb2Hash(Normalize(username));
        var selected := available[hash % |available|];
        NextWhileUnused(Assignment(result, used), username, theme);
        result', used' := result[username := selected], used + {selected};
      } else {
        var selected := GetUserColor(username, theme, []);
        NextWhenExhausted(Assignment(result, used), username, theme);
        result', used' := result[username := selected], used;
      }
      GrownStep(entries0, order0, old(entries), old(order), entries, order, usernames, i, theme);
    }

    /**
     * `getMultipleUserColors`: the loop of lines 116-130. Names that find an
     * unused palette colour take one by hash; the others go through
     * `GetUserColor` with no exclusions, which may add cache entries.
     */
    method GetMultipleUserColors(usernames: seq<string>, theme: Theme) returns (result: map<string, string>)
      requires Valid()
      modifies this
      ensures Valid()
      ensures result == MultipleUserColors(usernames, theme)
      ensures Grown(old(entries), old(order), entries, order, usernames, theme)
      ensures |usernames| <= 16 ==> entries == old(entries) && order == old(order)
    {
      result := map[];
      var used: set<string> := {};
      var i := 0;
      while i < |usernames|
        invariant i <= |usernames|
        invariant Assigned(result, used, usernames, i, theme, old(entries), old(order))
      {
        result, used := AssignOne(result, used, usernames, i, theme, old(entries), old(order));
        i := i + 1;
      }
      if |usernames| <= 16 {
        GrownByFew(old(entries), old(order), entries, order, usernames, theme);
      }
    }
  }

  /**
   * A cache key the fallback of `getMultipleUserColors` may add: a listed
   * name, the theme, no exclusions; and the fallback runs only once the
   * sixteen palette colours are used up, so only for more than sixteen names.
   */
  predicate NamesFallback(k: CacheKey, usernames: seq<string>, theme: Theme) {
    k.username in usernames && k.theme == theme && k.exclude == [] && 16 < |usernames|
  }

  /**
   * The cache `(e, o)` extends `(e0, o0)`: old keys are kept, the order only
   * grows at the end, and every added key is a fallback key of `usernames`.
   */
  ghost predicate Grown(e0: map<CacheKey, string>, o0: seq<CacheKey>, e: map<CacheKey, string>, o: seq<CacheKey>,
                        usernames: seq<string>, theme: Theme) {
    && e0.Keys <= e.Keys && o0 <= o
    && (forall k :: k in e && k !in e0 ==> NamesFallback(k, usernames, theme))
    && (forall j :: |o0| <= j < |o| ==> NamesFallback(o[j], usernames, theme))
  }

  /** Adding at most the fallback key of the `i`-th name keeps the cache grown only by fallback keys. */
  lemma GrownStep(e0: map<CacheKey, string>, o0: seq<CacheKey>, e1: map<CacheKey, string>, o1: seq<CacheKey>,
                  e2: map<CacheKey, string>, o2: seq<CacheKey>, usernames: seq<string>, i: nat, theme: Theme)
    requires i < |usernames| && Grown(e0, o0, e1, o1, usernames, theme)
    requires |usernames| <= 16 ==> e2 == e1 && o2 == o1
    requires e1.Keys <= e2.Keys
    requires forall k :: k in e2 && k !in e1 ==> k == CacheKey(usernames[i], theme, [])
    requires o2 == o1 || o2 == o1 + [CacheKey(usernames[i], theme, [])]
    ensures Grown(e0, o0, e2, o2, usernames, theme)
  {
    forall j | |o0| <= j < |o2| ensures NamesFallback(o2[j], usernames, theme) {
      if j < |o1| { assert o2[j] == o1[j]; }
    }
  }

  /** With at most sixteen names the cache a valid run of `getMultipleUserColors` leaves is the one it found. */
  lemma {:induction false} GrownByFew(e0: map<CacheKey, string>, o0: seq<CacheKey>, e: map<CacheKey, string>, o: seq<CacheKey>,
                                      usernames: seq<string>, theme: Theme)
    requires Grown(e0, o0, e, o, usernames, theme) && |usernames| <= 16
    requires EntriesCorrect(e0) && EntriesCorrect(e)
    ensures e == e0 && o == o0
  {
    assert e.Keys == e0.Keys;
    forall k | k in e ensures e[k] == e0[k] {
      assert e[k] == ColorFor(k.username, k.theme, k.exclude) == e0[k];
    }
    assert |o0| < |o| ==> NamesFallback(o[|o0|], usernames, theme);
  }

  // ------------------------------------------------ distinct assignment

  /** The state of `getMultipleUserColors` between names: the record built so far and `usedColors`. */
  datatype Assignment = Assignment(result: map<string, string>, used: set<string>)

  /** Whether some palette colour is still unused (`availableColors.length > 0`). */
  predicate HasUnused(used: set<string>, theme: Theme) {
    |Without(Palette(theme), used)| > 0
  }

  /** The colour one name receives: a fresh one while any is left, else its ordinary colour. */
  function Pick(used: set<string>, username: string, theme: Theme): (c: string)
    ensures c in Palette(theme)
    ensures HasUnused(used, theme) ==> c !in used
  {
    var available := Without(Palette(theme), used);
    if |available| > 0 then available[Djb2(Normalize(username)) % |available|]
    else ColorFor(username, theme, [])
  }

  /** One loop iteration: the name's entry is (re)written and a fresh colour is marked used. */
  function AssignNext(a: Assignment, username: string, theme: Theme): Assignment {
    var c := Pick(a.used, username, theme);
    Assignment(a.result[username := c], if HasUnused(a.used, theme) then a.used + {c} else a.used)
  }

  /** While a colour is unused, the name takes one by its hash and it becomes used. */
  lemma NextWhileUnused(a: Assignment, username: string, theme: Theme)
    requires HasUnused(a.used, theme)
    ensures var available := Without(Palette(theme), a.used);
      var c := available[Djb2(Normalize(username)) % |available|];
      AssignNext(a, username, theme) == Assignment(a.result[username := c], a.used + {c})
  {
  }

  /** With every colour used, the name gets its ordinary colour and nothing is marked. */
  lemma NextWhenExhausted(a: Assignment, username: string, theme: Theme)
    requires !HasUnused(a.used, theme)
    ensures AssignNext(a, username, theme) == Assignment(a.result[username := ColorFor(username, theme, [])], a.used)
  {
  }

  /** The state after the loop has run over the first `n` names. */
  function AssignPrefix(usernames: seq<string>, n: nat, theme: Theme): Assignment
    requires n <= |usernames|
    decreases n
  {
    if n == 0 then Assignment(map[], {}) else AssignNext(AssignPrefix(usernames, n - 1, theme), usernames[n - 1], theme)
  }

  /** The state after `n + 1` names is one iteration after the state after `n`. */
  lemma AssignPrefixStep(usernames: seq<string>, n: nat, theme: Theme)
    requires n < |usernames|
    ensures AssignPrefix(usernames, n + 1, theme) == AssignNext(AssignPrefix(usernames, n, theme), usernames[n], theme)
  {
  }

  /** The record `getMultipleUserColors` returns. */
  function MultipleUserColors(usernames: seq<string>, theme: Theme): map<string, string> {
    AssignPrefix(usernames, |usernames|, theme).result
  }

  /** One iteration writes the name's entry with a palette colour. */
  lemma AssignNextShape(a: Assignment, u: string, theme: Theme)
    ensures AssignNext(a, u, theme).result == a.result[u := Pick(a.used, u, theme)]
    ensures Pick(a.used, u, theme) in Palette(theme)
  {
  }

  /** Writing the `n`-th name with a palette colour extends the names written and keeps every value in the palette. */
  lemma InsertShape(prev: map<string, string>, usernames: seq<string>, n: nat, c: string, theme: Theme)
    requires 0 < n <= |usernames|
    requires forall x :: x in prev <==> x in usernames[..n - 1]
    requires forall x :: x in prev ==> prev[x] in Palette(theme)
    requires c in Palette(theme)
    ensures var next := prev[usernames[n - 1] := c];
      && (forall x :: x in next <==> x in usernames[..n])
      && (forall x :: x in next ==> next[x] in Palette(theme))
  {
    assert usernames[..n] == usernames[..n - 1] + [usernames[n - 1]];
  }

  /** One iteration over the `n`-th name keeps the entries to the names seen and the values in the palette. */
  lemma AssignNextKeepsShape(prev: Assignment, usernames: seq<string>, n: nat, theme: Theme)
    requires 0 < n <= |usernames|
    requires forall x :: x in prev.result <==> x in usernames[..n - 1]
    requires forall x :: x in prev.result ==> prev.result[x] in Palette(theme)
    ensures var next := AssignNext(prev, usernames[n - 1], theme).result;
      && (forall x :: x in next <==> x in usernames[..n])
      && (forall x :: x in next ==> next[x] in Palette(theme))
  {
    AssignNextShape(prev, usernames[n - 1], theme);
    InsertShape(prev.result, usernames, n, Pick(prev.used, usernames[n - 1], theme), theme);
  }

  /** After `n` names, exactly those names have entries, each a palette colour. */
  lemma {:induction false} AssignPrefixShape(usernames: seq<string>, n: nat, theme: Theme)
    requires n <= |usernames|
    ensures var r := AssignPrefix(usernames, n, theme).result;
      && (forall u :: u in r <==> u in usernames[..n])
      && (forall u :: u in r ==> r[u] in Palette(theme))
    decreases n
  {
    if n > 0 {
      AssignPrefixShape(usernames, n - 1, theme);
      AssignPrefixStep(usernames, n - 1, theme);
      AssignNextKeepsShape(AssignPrefix(usernames, n - 1, theme), usernames, n, theme);
    }
  }

  /** `getMultipleUserColors` assigns every listed name a colour of the theme, and nothing else. */
  lemma MultipleUserColorsShape(usernames: seq<string>, theme: Theme)
    ensures var r := MultipleUserColors(usernames, theme);
      && (forall u :: u in r <==> u in usernames)
      && (forall u :: u in r ==> r[u] in Palette(theme))
  {
    AssignPrefixShape(usernames, |usernames|, theme);
    assert usernames[..|usernames|] == usernames;
  }

  /** The sixteen colours of each palette are pairwise different. */
  lemma PaletteDistinct(theme: Theme)
    ensures Distinct(Palette(theme))
  {
    var p, c := Palette(theme), Codes(theme);
    CodesWellFormed(theme);
    forall i, j | 0 <= i < j < 16 ensures p[i] != p[j] {
      if p[i] == p[j] {
        HexColorInjective(c[i], c[j]);
      }
    }
  }


  /** Removing fewer distinct colours than a list holds leaves at least one. */
  lemma WithoutNonEmpty(colors: seq<string>, used: set<string>)
    requires Distinct(colors) && used <= SetOf(colors) && |used| < |colors|
    ensures |Without(colors, used)| > 0
  {
    DistinctCard(colors);
    var all := SetOf(colors);
    assert |all - used| > 0;
    var c :| c in all - used;
    assert c in Without(colors, used);
  }

  /** While the used colours are fewer than the palette's, some colour is unused. */
  lemma UnusedRemains(used: set<string>, theme: Theme)
    requires used <= SetOf(Palette(theme)) && |used| < 16
    ensures HasUnused(used, theme)
  {
    PaletteDistinct(theme);
    WithoutNonEmpty(Palette(theme), used);
  }

  /** The invariant behind distinctness: values are used colours and distinct names have distinct values. */
  ghost predicate Fresh(a: Assignment, theme: Theme) {
    && a.used <= SetOf(Palette(theme))
    && (forall k :: k in a.result ==> a.result[k] in a.used)
    && (forall k, l :: k in a.result && l in a.result && k != l ==> a.result[k] != a.result[l])
  }

  /** Recording a name with a colour not used before keeps the invariant. */
  lemma FreshInsert(a: Assignment, u: string, c: string, theme: Theme)
    requires Fresh(a, theme) && c !in a.used && c in SetOf(Palette(theme))
    ensures Fresh(Assignment(a.result[u := c], a.used + {c}), theme)
    ensures |a.used + {c}| == |a.used| + 1
  {
    var r, used := a.result[u := c], a.used + {c};
    forall k | k in r ensures r[k] in used {
      if k != u { assert r[k] == a.result[k] && a.result[k] in a.used; }
    }
    forall k, l | k in r && l in r && k != l ensures r[k] != r[l] {
      if k == u {
        assert r[l] == a.result[l] && a.result[l] in a.used;
      } else if l == u {
        assert r[k] == a.result[k] && a.result[k] in a.used;
      } else {
        assert r[k] == a.result[k] && r[l] == a.result[l];
      }
    }
  }

  /** While a colour is unused, one step takes a fresh colour and keeps the invariant. */
  lemma AssignNextFresh(a: Assignment, u: string, theme: Theme)
    requires Fresh(a, theme) && HasUnused(a.used, theme)
    ensures var next := AssignNext(a, u, theme);
      && Fresh(next, theme)
      && |next.used| == |a.used| + 1
  {
    var c := Pick(a.used, u, theme);
    assert AssignNext(a, u, theme) == Assignment(a.result[u := c], a.used + {c});
    FreshInsert(a, u, c, theme);
  }

  /** Over the first `n <= 16` names each iteration finds an unused colour and keeps the invariant. */
  lemma {:induction false} AssignPrefixFresh(usernames: seq<string>, n: nat, theme: Theme)
    requires n <= |usernames| && n <= 16
    ensures Fresh(AssignPrefix(usernames, n, theme), theme)
    ensures |AssignPrefix(usernames, n, theme).used| == n
    decreases n
  {
    if n > 0 {
      AssignPrefixFresh(usernames, n - 1, theme);
      AssignPrefixStep(usernames, n - 1, theme);
      FreshStep(AssignPrefix(usernames, n - 1, theme), usernames[n - 1], theme);
    }
  }

  /** An iteration that starts with fewer than sixteen colours used takes a fresh one. */
  lemma FreshStep(a: Assignment, u: string, theme: Theme)
    requires Fresh(a, theme) && |a.used| < 16
    ensures Fresh(AssignNext(a, u, theme), theme) && |AssignNext(a, u, theme).used| == |a.used| + 1
  {
    UnusedRemains(a.used, theme);
    AssignNextFresh(a, u, theme);
  }

  /** With at most sixteen names, every iteration still finds an unused colour, so the fallback is never taken. */
  lemma UnusedWhileFew(usernames: seq<string>, i: nat, theme: Theme)
    requires i < |usernames| <= 16
    ensures HasUnused(AssignPrefix(usernames, i, theme).used, theme)
  {
    AssignPrefixFresh(usernames, i, theme);
    UnusedRemains(AssignPrefix(usernames, i, theme).used, theme);
  }

  /** Up to sixteen names (repeats allowed) get pairwise different colours. */
  lemma MultipleUserColorsDistinct(usernames: seq<string>, theme: Theme)
    requires |usernames| <= 16
    ensures var r := MultipleUserColors(usernames, theme);
      forall u, v :: u in r && v in r && u != v ==> r[u] != r[v]
  {
    AssignPrefixFresh(usernames, |usernames|, theme);
  }

  // ------------------------------------------- the cache key as written

  /** `Array.prototype.join`. */
  function Join(xs: seq<string>, sep: string): string
    decreases |xs|
  {
    if xs == [] then "" else if |xs| == 1 then xs[0] else xs[0] + sep + Join(xs[1..], sep)
  }

  /** Two strings join to the first, the separator and the second. */
  lemma JoinPair(x: string, y: string, sep: string)
    ensures Join([x, y], sep) == x + sep + y
  {
    assert [x, y][1..] == [y];
  }

  /** The colour `c` and black join to the single string `c + ",#000000"`. */
  lemma JoinWithBlack(c: string)
    ensures Join([c, "#000000"], ",") == c + ",#000000"
  {
    JoinPair(c, "#000000", ",");
    assert c + "," + "#000000" == c + ",#000000";
  }

  /** Line 78: the key is the name, the theme and the joined exclusions, separated by dashes. */
  function CacheKeyAsWritten(username: string, theme: Theme, exclude: seq<string>): string {
    username + "-" + ThemeName(theme) + "-" + Join(exclude, ",")
  }

  /** A colour as the palettes write it: '#' and six hexadecimal digits. */
  predicate IsColorText(s: string) {
    |s| == 7 && s[0] == '#' && forall i :: 1 <= i < 7 ==> HexDigit(s[i]).Some?
  }

  /** Every palette colour is written "#rrggbb". */
  lemma PaletteColorTexts(theme: Theme)
    ensures forall c :: c in Palette(theme) ==> IsColorText(c)
  {
    var p := Palette(theme);
    forall c | c in p ensures IsColorText(c) {
      var i :| 0 <= i < 16 && p[i] == c;
      assert c == HexColor(Codes(theme)[i]);
    }
  }

  /** A colour text has no dash. */
  lemma ColorTextNoDash(x: string)
    requires IsColorText(x)
    ensures '-' !in x
  {
    assert HexDigit('-').None?;
    forall i | 0 <= i < 7 ensures x[i] != '-' {
      if i > 0 { assert HexDigit(x[i]).Some?; }
    }
  }

  /** Colours joined by commas: eight characters per colour but one, and no dash. */
  lemma {:induction false} JoinColorTexts(xs: seq<string>)
    requires forall x :: x in xs ==> IsColorText(x)
    ensures |Join(xs, ",")| == if xs == [] then 0 else 8 * |xs| - 1
    ensures '-' !in Join(xs, ",")
    decreases |xs|
  {
    if xs != [] {
      assert xs[0] in xs;
      ColorTextNoDash(xs[0]);
    }
    if |xs| > 1 {
      var rest := Join(xs[1..], ",");
      assert forall x :: x in xs[1..] ==> x in xs;
      JoinColorTexts(xs[1..]);
      assert Join(xs, ",") == xs[0] + "," + rest;
    }
  }

  /** Lists of colours are told apart by their comma-joined text. */
  lemma {:induction false} JoinColorTextsInjective(xs: seq<string>, ys: seq<string>)
    requires forall x :: x in xs ==> IsColorText(x)
    requires forall y :: y in ys ==> IsColorText(y)
    requires Join(xs, ",") == Join(ys, ",")
    ensures xs == ys
    decreases |xs|
  {
    JoinColorTexts(xs);
    JoinColorTexts(ys);
    assert |xs| == |ys|;
    if |xs| > 1 {
      assert xs[0] in xs && ys[0] in ys;
      var s := Join(xs, ",");
      assert s == xs[0] + "," + Join(xs[1..], ",") == ys[0] + "," + Join(ys[1..], ",");
      assert xs[0] == s[..7] == ys[0];
      assert Join(xs[1..], ",") == s[8..] == Join(ys[1..], ",");
      assert forall x :: x in xs[1..] ==> x in xs;
      assert forall y :: y in ys[1..] ==> y in ys;
      JoinColorTextsInjective(xs[1..], ys[1..]);
      assert xs == [xs[0]] + xs[1..];
      assert ys == [ys[0]] + ys[1..];
    }
  }

  /** The position of the last dash in `s`, or -1 when there is none. */
  function LastDash(s: string): (r: int)
    ensures -1 <= r < |s|
    decreases |s|
  {
    if s == [] then -1 else if s[|s| - 1] == '-' then |s| - 1 else LastDash(s[..|s| - 1])
  }

  /** The last dash of `a + "-" + b` is the one after `a` when `b` has none. */
  lemma {:induction false} LastDashAfter(a: string, b: string)
    requires '-' !in b
    ensures LastDash(a + "-" + b) == |a|
    decreases |b|
  {
    var s := a + "-" + b;
    if b == [] {
      assert s[|s| - 1] == '-';
    } else {
      assert s[|s| - 1] == b[|b| - 1];
      assert s[..|s| - 1] == a + "-" + b[..|b| - 1];
      LastDashAfter(a, b[..|b| - 1]);
    }
  }

  /** Text split at its last dash, where the part after it has no dash, splits only one way. */
  lemma SplitAtLastDash(a: string, b: string, c: string, d: string)
    requires '-' !in b && '-' !in d && a + "-" + b == c + "-" + d
    ensures a == c && b == d
  {
    var s := a + "-" + b;
    LastDashAfter(a, b);
    LastDashAfter(c, d);
    assert a == s[..|a|] && c == s[..|c|];
    assert b == s[|a| + 1..] && d == s[|c| + 1..];
  }

  /**
   * With only colours "#rrggbb" excluded, the string key of line 78 names one
   * argument triple: the dash before the exclusions and the one before the
   * theme are found from the right, so a dash in the name does no harm.
   */
  lemma CacheKeyAsWrittenInjective(u1: string, t1: Theme, x1: seq<string>, u2: string, t2: Theme, x2: seq<string>)
    requires forall x :: x in x1 ==> IsColorText(x)
    requires forall x :: x in x2 ==> IsColorText(x)
    requires CacheKeyAsWritten(u1, t1, x1) == CacheKeyAsWritten(u2, t2, x2)
    ensures u1 == u2 && t1 == t2 && x1 == x2
  {
    JoinColorTexts(x1);
    JoinColorTexts(x2);
    SplitAtLastDash(u1 + "-" + ThemeName(t1), Join(x1, ","), u2 + "-" + ThemeName(t2), Join(x2, ","));
    JoinColorTextsInjective(x1, x2);
    assert '-' !in ThemeName(t1) && '-' !in ThemeName(t2);
    SplitAtLastDash(u1, ThemeName(t1), u2, ThemeName(t2));
  }

  /** `getUserColor` over a cache keyed by that string: the colour returned and the cache afterwards. */
  function LookupAsWritten(cache: map<string, string>, username: string, theme: Theme, exclude: seq<string>)
    : (r: (string, map<string, string>))
    ensures Trim(username) != "" ==> CacheKeyAsWritten(username, theme, exclude) in r.1
  {
    if Trim(username) == "" then (Palette(theme)[0], cache)
    else
      var key := CacheKeyAsWritten(username, theme, exclude);
      if key in cache then (cache[key], cache)
      else var c := ColorFor(username, theme, exclude); (c, cache[key := c])
  }

  /** Excluding only colours outside a list removes nothing from it. */
  lemma WithoutForeign(colors: seq<string>, exclude: seq<string>)
    requires forall x :: x in exclude ==> x !in colors
    ensures Without(colors, SetOf(exclude)) == colors
  {
    forall c | c in colors ensures c !in SetOf(exclude) {
    }
  }

  /** Excluding only colours outside the palette changes nothing. */
  lemma ForeignExclusionsIgnored(username: string, theme: Theme, exclude: seq<string>)
    requires forall x :: x in exclude ==> x !in Palette(theme)
    ensures ColorFor(username, theme, exclude) == ColorFor(username, theme, [])
  {
    WithoutForeign(Palette(theme), exclude);
    WithoutForeign(Palette(theme), []);
  }

  /** No palette colour is black. */
  lemma BlackNotInPalette(theme: Theme)
    ensures "#000000" !in Palette(theme)
  {
    var p, c := Palette(theme), Codes(theme);
    CodesWellFormed(theme);
    assert HexColor(0) == "#000000";
    forall i | 0 <= i < 16 ensures p[i] != "#000000" {
      if p[i] == "#000000" {
        HexColorInjective(c[i], 0);
      }
    }
  }


  /** A palette holds a colour other than any given one, and none of its colours is black. */
  lemma AnotherColor(theme: Theme, c: string) returns (other: string)
    ensures other in Palette(theme) && other != c && other != "#000000"
  {
    var p := Palette(theme);
    PaletteDistinct(theme);
    BlackNotInPalette(theme);
    other := if p[0] != c then p[0] else p[1];
  }

  /** A name whose key is cached gets the cached colour back. */
  lemma LookupHit(cache: map<string, string>, username: string, theme: Theme, exclude: seq<string>)
    requires Trim(username) != "" && CacheKeyAsWritten(username, theme, exclude) in cache
    ensures LookupAsWritten(cache, username, theme, exclude).0 == cache[CacheKeyAsWritten(username, theme, exclude)]
  {
  }

  /** A name whose key is not cached gets its selected colour, which is then recorded under the key. */
  lemma LookupMiss(cache: map<string, string>, username: string, theme: Theme, exclude: seq<string>)
    requires Trim(username) != "" && CacheKeyAsWritten(username, theme, exclude) !in cache
    ensures var c := ColorFor(username, theme, exclude);
      LookupAsWritten(cache, username, theme, exclude) == (c, cache[CacheKeyAsWritten(username, theme, exclude) := c])
  {
  }

  /** Excluding the string `c + ",#000000"`, which is no colour, leaves the name's plain colour, which is then cached. */
  lemma FirstCallPlain(username: string, theme: Theme)
    requires Trim(username) != ""
    ensures var c := ColorFor(username, theme, []);
      var key := CacheKeyAsWritten(username, theme, [c + ",#000000"]);
      LookupAsWritten(map[], username, theme, [c + ",#000000"]) == (c, map[key := c])
  {
    var c := ColorFor(username, theme, []);
    var exclude := [c + ",#000000"];
    PaletteColorTexts(theme);
    assert |exclude[0]| == 15;
    ForeignExclusionsIgnored(username, theme, exclude);
    LookupMiss(map[], username, theme, exclude);
  }

  /** Excluding `c` and black is looked up under the same text as excluding `c + ",#000000"`. */
  lemma SecondCallHits(username: string, theme: Theme, c: string)
    requires Trim(username) != ""
    ensures var key := CacheKeyAsWritten(username, theme, [c + ",#000000"]);
      LookupAsWritten(map[key := c], username, theme, [c, "#000000"]).0 == c
  {
    JoinWithBlack(c);
    var key := CacheKeyAsWritten(username, theme, [c + ",#000000"]);
    assert CacheKeyAsWritten(username, theme, [c, "#000000"]) == key;
    LookupHit(map[key := c], username, theme, [c, "#000000"]);
  }

  /** Excluding a palette colour and black, a non-blank name never gets that colour. */
  lemma ExcludedAvoided(username: string, theme: Theme, c: string)
    requires Trim(username) != ""
    ensures ColorFor(username, theme, [c, "#000000"]) != c
  {
    var allowed := AnotherColor(theme, c);
    ColorForAvoids(username, theme, [c, "#000000"], allowed, c);
  }

  /**
   * Two exclusion lists that join to the same text share a cache entry.
   * After a call that excludes the single string `c + ",#000000"` (which
   * excludes nothing, so it returns the name's plain colour `c`), a call
   * that excludes `c` and "#000000" is answered from the cache with `c`
   * itself, an excluded colour, although a permitted colour exists.
   */
  lemma StringKeyServesExcludedColor(username: string, theme: Theme)
    requires Trim(username) != ""
    ensures var c := ColorFor(username, theme, []);
      var first := LookupAsWritten(map[], username, theme, [c + ",#000000"]);
      var second := LookupAsWritten(first.1, username, theme, [c, "#000000"]);
      && first.0 == c
      && second.0 == c && c in [c, "#000000"]
      && ColorFor(username, theme, [c, "#000000"]) != c
  {
    var c := ColorFor(username, theme, []);
    FirstCallPlain(username, theme);
    SecondCallHits(username, theme, c);
    ExcludedAvoided(username, theme, c);
  }

  // --------------------------------------------------------------- contrast

  /** The value of one hexadecimal digit, if it is one. */
  function HexDigit(c: char): Option<int> {
    if '0' <= c <= '9' then Some(c as int - '0' as int)
    else if 'a' <= c <= 'f' then Some(c as int - 'a' as int + 10)
    else if 'A' <= c <= 'F' then Some(c as int - 'A' as int + 10)
    else None
  }

  /** How many hexadecimal digits `s` starts with. */
  function LeadingHexDigits(s: string): (n: nat)
    ensures n <= |s|
    ensures forall i :: 0 <= i < n ==> HexDigit(s[i]).Some?
    ensures n < |s| ==> HexDigit(s[n]).None?
    decreases |s|
  {
    if s != [] && HexDigit(s[0]).Some? then 1 + LeadingHexDigits(s[1..]) else 0
  }

  /** The value of the hexadecimal digits `s` starts with, accumulated onto `acc`, most significant first. */
  function HexValue(s: string, acc: int): int
    decreases |s|
  {
    if s != [] && HexDigit(s[0]).Some? then HexValue(s[1..], 16 * acc + HexDigit(s[0]).value) else acc
  }

  /**
   * `parseInt(s, 16)` on integers: leading whitespace, an optional sign and
   * an optional "0x" prefix are skipped, then the longest run of hex digits
   * is read; with no digit the result is NaN (None).
   */
  function ParseIntHex(s: string): Option<int> {
    var t := TrimStart(s);
    var negative := |t| > 0 && t[0] == '-';
    var unsigned := if |t| > 0 && (t[0] == '-' || t[0] == '+') then t[1..] else t;
    var body := if |unsigned| >= 2 && unsigned[0] == '0' && (unsigned[1] == 'x' || unsigned[1] == 'X')
                then unsigned[2..] else unsigned;
    if LeadingHexDigits(body) == 0 then None
    else Some(if negative then -HexValue(body, 0) else HexValue(body, 0))
  }

  /** `s.replace('#', '')`: only the first '#' goes. */
  function RemoveFirst(s: string, c: char): string
    decreases |s|
  {
    if s == [] then [] else if s[0] == c then s[1..] else [s[0]] + RemoveFirst(s[1..], c)
  }

  /** `s.slice(from, to)` for non-negative bounds. */
  function Slice(s: string, from: nat, to: nat): string {
    var lo := if from < |s| then from else |s|;
    var hi := if to < |s| then to else |s|;
    if lo <= hi then s[lo..hi] else []
  }

  /**
   * `getContrastTextColor`: black on a bright background, white otherwise.
   * Brightness `(r*299 + g*587 + b*114) / 1000 > 128` is decided exactly in
   * integers; a component that does not parse is NaN, and NaN is never
   * greater than 128.
   */
  function ContrastTextColor(background: string): (r: string)
    ensures r == "#000000" || r == "#ffffff"
  {
    var hex := RemoveFirst(background, '#');
    var red := ParseIntHex(Slice(hex, 0, 2));
    var green := ParseIntHex(Slice(hex, 2, 4));
    var blue := ParseIntHex(Slice(hex, 4, 6));
    if red.Some? && green.Some? && blue.Some? && red.value * 299 + green.value * 587 + blue.value * 114 > 128000
    then "#000000" else "#ffffff"
  }

  /** Two hex digits parse to their value. */
  lemma ParseTwoHexDigits(d: string)
    requires |d| == 2 && HexDigit(d[0]).Some? && HexDigit(d[1]).Some?
    ensures ParseIntHex(d) == Some(16 * HexDigit(d[0]).value + HexDigit(d[1]).value)
  {
    var hi, lo := HexDigit(d[0]).value, HexDigit(d[1]).value;
    assert !IsJsWhitespace(d[0]);
    assert TrimStart(d) == d;
    assert d[0] != '-' && d[0] != '+';
    assert d[1] != 'x' && d[1] != 'X';
    assert LeadingHexDigits(d) > 0;
    assert HexValue(d[1..][1..], 16 * hi + lo) == 16 * hi + lo;
    assert HexValue(d[1..], hi) == 16 * hi + lo;
    assert HexValue(d, 0) == 16 * hi + lo;
  }

  /** For "#rrggbb" the text is black exactly when 299 r + 587 g + 114 b exceeds 128000. */
  lemma ContrastOfHexColor(d: string)
    requires |d| == 6 && forall i :: 0 <= i < 6 ==> HexDigit(d[i]).Some?
    ensures var r := 16 * HexDigit(d[0]).value + HexDigit(d[1]).value;
      var g := 16 * HexDigit(d[2]).value + HexDigit(d[3]).value;
      var b := 16 * HexDigit(d[4]).value + HexDigit(d[5]).value;
      ContrastTextColor("#" + d) == if r * 299 + g * 587 + b * 114 > 128000 then "#000000" else "#ffffff"
  {
    assert RemoveFirst("#" + d, '#') == d by { assert ("#" + d)[1..] == d; }
    assert Slice(d, 0, 2) == [d[0], d[1]];
    assert Slice(d, 2, 4) == [d[2], d[3]];
    assert Slice(d, 4, 6) == [d[4], d[5]];
    ParseTwoHexDigits([d[0], d[1]]);
    ParseTwoHexDigits([d[2], d[3]]);
    ParseTwoHexDigits([d[4], d[5]]);
  }
}
