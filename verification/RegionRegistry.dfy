/** The registry of code regions: names and files are interned, and a region is found again by a key
    that is computed from their numbers and its line. */
module RegionRegistry {
  import opened DecimalStrings
  import opened Maps
  import opened Separators
  import opened Sequences

  const DEFAULT_REGION_NAME := "psc_reg_name_none"
  const DEFAULT_FILE_NAME := "psc_file_name_none"

  const TWO_TO_THE_64 := 0x1_0000_0000_0000_0000

  // How many strings and what lines a key has room for.
  const MAX_STRINGS := 1000
  const MAX_LINES := 20000

  /** The key of a region, in unsigned 64-bit arithmetic. */
  function HashRegionIdent(nameId: int, fileId: int, rfl: int): nat {
    (fileId * 10000000 + nameId * 10000 + rfl) % TWO_TO_THE_64
  }

  /** The numbers of the first `strings` interned strings: the odd ones from 3 on. */
  predicate StringNumber(id: int, strings: nat) {
    3 <= id <= 1 + 2 * strings && id % 2 == 1
  }

  /** A key's three parts, with this many interned strings and lines below `lines`. */
  predicate Parts(nameId: int, fileId: int, rfl: int, strings: nat, lines: nat) {
    StringNumber(nameId, strings) && StringNumber(fileId, strings) && 0 <= rfl < lines
  }

  /** So many strings and so high line numbers have their place in a key. */
  predicate Roomy(strings: nat, lines: nat) {
    strings <= MAX_STRINGS && lines <= MAX_LINES
  }

  lemma PlainKey(nameId: int, fileId: int, rfl: int)
    requires Parts(nameId, fileId, rfl, MAX_STRINGS, MAX_LINES)
    ensures HashRegionIdent(nameId, fileId, rfl) == fileId * 10000000 + nameId * 10000 + rfl > 0
  {
  }

  /** Keys are different for different regions, and never 0, as long as there is room: numbers are
      odd, so neighbouring ones are 20000 apart in a key. */
  lemma KeysInjective(n: int, f: int, r: int, n': int, f': int, r': int)
    requires Parts(n, f, r, MAX_STRINGS, MAX_LINES) && Parts(n', f', r', MAX_STRINGS, MAX_LINES)
    ensures HashRegionIdent(n, f, r) == HashRegionIdent(n', f', r') <==> n == n' && f == f' && r == r'
    ensures HashRegionIdent(n, f, r) != 0
  {
    PlainKey(n, f, r);
    PlainKey(n', f', r');
    var a, b, a', b' := n / 2, f / 2, n' / 2, f' / 2;
    assert n == 2 * a + 1 && f == 2 * b + 1 && n' == 2 * a' + 1 && f' == 2 * b' + 1;
  }

  /** No two regions share a key, and no key is 0, which stands for an unknown name. */
  ghost predicate KeysUnique(strings: nat, lines: nat) {
    && (forall n, f, r :: Parts(n, f, r, strings, lines) ==> HashRegionIdent(n, f, r) != 0)
    && (forall n, f, r, n', f', r' | Parts(n, f, r, strings, lines) && Parts(n', f', r', strings, lines) ::
          (HashRegionIdent(n, f, r) == HashRegionIdent(n', f', r') ==> n == n' && f == f' && r == r'))
  }

  /** Keys are unique exactly up to 1000 strings and for lines below 20000: with one string more, or
      one line more, there are two regions with the same key. */
  lemma KeysUniqueIff(strings: nat, lines: nat)
    requires strings >= 2 && lines >= 1
    ensures KeysUnique(strings, lines) <==> Roomy(strings, lines)
  {
    if Roomy(strings, lines) {
      forall n, f, r | Parts(n, f, r, strings, lines)
        ensures HashRegionIdent(n, f, r) != 0
      {
        KeysInjective(n, f, r, n, f, r);
      }
      forall n, f, r, n', f', r' | Parts(n, f, r, strings, lines) && Parts(n', f', r', strings, lines)
        ensures HashRegionIdent(n, f, r) == HashRegionIdent(n', f', r') ==> n == n' && f == f' && r == r'
      {
        KeysInjective(n, f, r, n', f', r');
      }
    } else if strings > MAX_STRINGS {
      assert Parts(2003, 3, 0, strings, lines) && Parts(3, 5, 0, strings, lines);
      assert HashRegionIdent(2003, 3, 0) == HashRegionIdent(3, 5, 0);
    } else {
      assert Parts(3, 3, 20000, strings, lines) && Parts(5, 3, 0, strings, lines);
      assert HashRegionIdent(3, 3, 20000) == HashRegionIdent(5, 3, 0);
    }
  }

  class Region {
    const key: int
    const name: string
    const fileName: string
    const fileId: int
    const rfl: int
    const startPosition: int
    const endPosition: int

    constructor (key: int, fileId: int, rfl: int, startPosition: int, endPosition: int, fileName: string, name: string)
      ensures this.key == key && this.fileId == fileId && this.rfl == rfl && this.fileName == fileName
      ensures this.name == name
      ensures this.startPosition == startPosition && this.endPosition == endPosition
    {
      this.key, this.fileId, this.rfl := key, fileId, rfl;
      this.startPosition, this.endPosition := startPosition, endPosition;
      this.fileName, this.name := fileName, name;
    }

    predicate Is(name: string, fileName: string, rfl: int) {
      this.name == name && this.fileName == fileName && this.rfl == rfl
    }
  }

  function RegionId(fileName: string, name: string, rfl: int): string {
    fileName + ['*'] + name + ['*'] + Dec(rfl)
  }

  /** The string id of a region identifies it, as long as neither names nor files hold a star. */
  lemma RegionIdInjective(f: string, n: string, r: int, f': string, n': string, r': int)
    requires '*' !in n && '*' !in n'
    ensures RegionId(f, n, r) == RegionId(f', n', r') <==> f == f' && n == n' && r == r'
  {
    hide Dec;
    if RegionId(f, n, r) == RegionId(f', n', r') {
      DecPlain(r);
      DecPlain(r');
      LastUnique(f + ['*'] + n, Dec(r), f' + ['*'] + n', Dec(r'), '*');
      LastUnique(f, n, f', n', '*');
      DecInjective(r, r');
    }
  }

  datatype Outcome = Added(region: Region) | Aborted

  function OrDefault(s: string, default: string): string {
    if s == "" then default else s
  }

  /** Both names of the region have numbers, and these and its line make up the key. */
  ghost predicate HasKey(r: Region, key: int, ids: map<string, int>) {
    && r.name in ids && r.fileName in ids && r.name != "" && r.fileName != ""
    && key == HashRegionIdent(ids[r.name], ids[r.fileName], r.rfl)
  }

  ghost predicate KeysMatch(regions: map<int, Region>, ids: map<string, int>) {
    forall k :: k in regions ==> HasKey(regions[k], k, ids)
  }

  ghost predicate IdsMatch(codeRegions: map<string, Region>, regions: map<int, Region>, ids: map<string, int>) {
    forall s :: s in codeRegions ==>
      var r := codeRegions[s];
      s == RegionId(r.fileName, r.name, r.rfl) && exists k :: k in regions && HasKey(r, k, ids)
  }

  lemma StillMatch(codeRegions: map<string, Region>, regions: map<int, Region>, ids: map<string, int>,
                   more: map<string, int>)
    requires KeysMatch(regions, ids) && IdsMatch(codeRegions, regions, ids) && Extends(ids, more)
    ensures KeysMatch(regions, more) && IdsMatch(codeRegions, regions, more)
  {
    hide HashRegionIdent, RegionId;
    forall s | s in codeRegions
      ensures exists k :: k in regions && HasKey(codeRegions[s], k, more)
    {
      var k :| k in regions && HasKey(codeRegions[s], k, ids);
      assert HasKey(codeRegions[s], k, more);
    }
  }

  lemma MatchWith(codeRegions: map<string, Region>, regions: map<int, Region>, ids: map<string, int>, r: Region)
    requires KeysMatch(regions, ids) && IdsMatch(codeRegions, regions, ids) && HasKey(r, r.key, ids)
    ensures KeysMatch(regions[r.key := r], ids)
    ensures IdsMatch(codeRegions[RegionId(r.fileName, r.name, r.rfl) := r], regions[r.key := r], ids)
  {
    hide HashRegionIdent, RegionId;
    var regions' := regions[r.key := r];
    forall s | s in codeRegions
      ensures exists k :: k in regions' && HasKey(codeRegions[s], k, ids)
    {
      var k :| k in regions && HasKey(codeRegions[s], k, ids);
      assert k in regions';
    }
    assert r.key in regions';
  }

  class Registry {
    var stringsById: map<int, string>
    var idsByString: map<string, int>
    var lastStringId: int
    var regionByRegionKey: map<int, Region>
    var codeRegions: map<string, Region>

    /** The numbers given out are exactly the odd ones from 3 on, each to one string. */
    ghost predicate Interned()
      reads this`stringsById, this`idsByString, this`lastStringId
    {
      && lastStringId == 1 + 2 * |idsByString|
      && (forall id :: id in stringsById <==> 3 <= id <= lastStringId && id % 2 == 1)
      && (forall s :: s in idsByString ==> idsByString[s] in stringsById && stringsById[idsByString[s]] == s)
      && (forall id :: id in stringsById ==> stringsById[id] in idsByString && idsByString[stringsById[id]] == id)
    }

    constructor ()
      ensures Interned() && regionByRegionKey == map[] && codeRegions == map[]
    {
      stringsById, idsByString, lastStringId := map[], map[], 1;
      regionByRegionKey, codeRegions := map[], map[];
    }

    function GetIDbyString(str: string): int
      reads this`idsByString
    {
      if str in idsByString then idsByString[str] else -1
    }

    function GetStringByID(id: int): string
      reads this`stringsById
    {
      if id in stringsById then stringsById[id] else ""
    }

    /** The number of a string: the one it has, or the next odd one.  Before a number is taken, a
        loop without a body waits until the even number before it is free, which would be for ever:
        `spins` tells whether it is entered. */
    method AddString(str: string) returns (id: int, ghost spins: bool)
      requires Interned()
      modifies this`stringsById, this`idsByString, this`lastStringId
      ensures !spins
      ensures Interned() && GetIDbyString(str) == id && GetStringByID(id) == str && id in stringsById
      ensures if str in old(idsByString) then idsByString == old(idsByString) && stringsById == old(stringsById)
              else && idsByString == old(idsByString)[str := old(lastStringId) + 2]
                   && stringsById == old(stringsById)[old(lastStringId) + 2 := str]
    {
      id, spins := GetIDbyString(str), false;
      if id != -1 {
        return;
      }
      lastStringId := lastStringId + 1;
      assert lastStringId % 2 == 0;
      spins := GetStringByID(lastStringId) != "";
      lastStringId := lastStringId + 1;
      stringsById := stringsById[lastStringId := str];
      idsByString := idsByString[str := lastStringId];
      id := lastStringId;
    }

    /** What key a region with this description has; 0 if one of the names is not known yet. */
    function GetRegionKeyByDescr(name: string, fileName: string, rfl: int): int
      reads this`idsByString
    {
      var fileId := GetIDbyString(OrDefault(fileName, DEFAULT_FILE_NAME));
      var nameId := GetIDbyString(OrDefault(name, DEFAULT_REGION_NAME));
      if fileId == -1 || nameId == -1 then 0 else HashRegionIdent(nameId, fileId, rfl)
    }

    /** Every region is registered under the key of its own description, and its string id. */
    ghost predicate Valid()
      reads this
    {
      Interned() && KeysMatch(regionByRegionKey, idsByString) && IdsMatch(codeRegions, regionByRegionKey, idsByString)
    }

    /** Another region sits where the described one is looked for. */
    ghost predicate Clashes(name: string, fileName: string, rfl: int)
      reads this`idsByString, this`regionByRegionKey
    {
      var key := GetRegionKeyByDescr(name, fileName, rfl);
      var n, f := OrDefault(name, DEFAULT_REGION_NAME), OrDefault(fileName, DEFAULT_FILE_NAME);
      key in regionByRegionKey && !regionByRegionKey[key].Is(n, f, rfl)
    }

    ghost predicate Registered(name: string, fileName: string, rfl: int)
      reads this`regionByRegionKey
    {
      exists k :: k in regionByRegionKey && regionByRegionKey[k].Is(name, fileName, rfl)
    }

    /** A registered region is found under the key of its description. */
    lemma RegisteredIsFound(name: string, fileName: string, rfl: int)
      requires Valid() && name != "" && fileName != "" && Registered(name, fileName, rfl)
      ensures GetRegionKeyByDescr(name, fileName, rfl) in regionByRegionKey
    {
      var k :| k in regionByRegionKey && regionByRegionKey[k].Is(name, fileName, rfl);
    }

    /** All lines have their place in a key. */
    ghost predicate LinesFit()
      reads this`regionByRegionKey
    {
      forall k :: k in regionByRegionKey ==> 0 <= regionByRegionKey[k].rfl < MAX_LINES
    }

    /** Up to 1000 strings, and with lines below 20000, no region is in the way of another. */
    lemma NoClash(name: string, fileName: string, rfl: int)
      requires Valid() && LinesFit() && |idsByString| <= MAX_STRINGS && 0 <= rfl < MAX_LINES
      ensures !Clashes(name, fileName, rfl)
    {
      var n, f := OrDefault(name, DEFAULT_REGION_NAME), OrDefault(fileName, DEFAULT_FILE_NAME);
      var key := GetRegionKeyByDescr(name, fileName, rfl);
      if key in regionByRegionKey {
        var r := regionByRegionKey[key];
        SameKeySameRegion(r, n, f, rfl);
      }
    }

    lemma SameKeySameRegion(r: Region, name: string, fileName: string, rfl: int)
      requires Interned() && |idsByString| <= MAX_STRINGS && 0 <= rfl < MAX_LINES && 0 <= r.rfl < MAX_LINES
      requires r.name in idsByString && r.fileName in idsByString
      ensures HashRegionIdent(idsByString[r.name], idsByString[r.fileName], r.rfl) != 0
      ensures name in idsByString && fileName in idsByString &&
              HashRegionIdent(idsByString[r.name], idsByString[r.fileName], r.rfl) ==
              HashRegionIdent(idsByString[name], idsByString[fileName], rfl) ==>
                r.Is(name, fileName, rfl)
    {
      var n, f := idsByString[r.name], idsByString[r.fileName];
      var n' := if name in idsByString then idsByString[name] else n;
      var f' := if fileName in idsByString then idsByString[fileName] else f;
      KeysInjective(n, f, r.rfl, n', f', rfl);
    }

    lemma HasItsKey(k: int)
      requires KeysMatch(regionByRegionKey, idsByString) && k in regionByRegionKey
      ensures HasKey(regionByRegionKey[k], k, idsByString)
    {
    }

    /** Then a region that is not registered can always be stored, if no name holds a star. */
    lemma AlwaysStored(name: string, fileName: string, rfl: int)
      requires Valid() && LinesFit() && |idsByString| <= MAX_STRINGS && 0 <= rfl < MAX_LINES
      requires '*' !in name && forall s :: s in codeRegions ==> '*' !in codeRegions[s].name
      requires RegionId(fileName, name, rfl) in codeRegions
      ensures Registered(name, fileName, rfl)
    {
      var s := RegionId(fileName, name, rfl);
      var r := codeRegions[s];
      RegionIdInjective(r.fileName, r.name, r.rfl, fileName, name, rfl);
      var k :| k in regionByRegionKey && HasKey(r, k, idsByString);
      HasItsKey(k);
      SameKeySameRegion(regionByRegionKey[k], name, fileName, rfl);
    }

    /** Registers a region, or finds it if it is registered already.  The region returned is the one
        asked for, unless another one sits under its key: then it is that one. */
    method AddScorepRegion(rfl: int, fileName0: string, name0: string, startPosition: int, endPosition: int)
      returns (r: Outcome)
      requires Valid()
      modifies this
      ensures r.Added? ==> Valid()
      ensures var name := if name0 == "" then DEFAULT_REGION_NAME else name0;
              var fileName := if fileName0 == "" then DEFAULT_FILE_NAME else fileName0;
              && (r.Added? ==> (r.region.Is(name, fileName, rfl) <==> !old(Clashes(name0, fileName0, rfl))))
              && (old(Registered(name, fileName, rfl)) ==> r.Added? && !fresh(r.region))
              && (r.Added? && !fresh(r.region) ==>
                    r.region in old(regionByRegionKey).Values && regionByRegionKey == old(regionByRegionKey))
              && (r.Added? && old(LinesFit()) && |old(idsByString)| <= MAX_STRINGS && 0 <= rfl < MAX_LINES ==>
                    r.region.Is(name, fileName, rfl) && (!fresh(r.region) <==> old(Registered(name, fileName, rfl))))
              && (r.Added? && fresh(r.region) ==>
                    && regionByRegionKey == old(regionByRegionKey)[r.region.key := r.region]
                    && codeRegions == old(codeRegions)[RegionId(fileName, name, rfl) := r.region]
                    && r.region.name == name && r.region.fileName == fileName && r.region.rfl == rfl
                    && r.region.startPosition == startPosition && r.region.endPosition == endPosition)
              && (r == Aborted ==> RegionId(fileName, name, rfl) in old(codeRegions))
      ensures r.Added? && fresh(r.region) && |idsByString| <= MAX_STRINGS && 0 <= rfl < MAX_LINES && old(LinesFit()) ==>
                r.region.key !in old(regionByRegionKey)
    {
      hide Interned, KeysMatch, IdsMatch, HashRegionIdent, RegionId, HasKey;
      var fileName, name := OrDefault(fileName0, DEFAULT_FILE_NAME), OrDefault(name0, DEFAULT_REGION_NAME);
      var key := GetRegionKeyByDescr(name, fileName, rfl);
      if Registered(name, fileName, rfl) {
        RegisteredIsFound(name, fileName, rfl);
      }
      if LinesFit() && |idsByString| <= MAX_STRINGS && 0 <= rfl < MAX_LINES {
        NoClash(name0, fileName0, rfl);
      }
      if key in regionByRegionKey {
        return Added(regionByRegionKey[key]);
      }
      r := AddNewRegion(rfl, fileName, name, startPosition, endPosition);
    }

    /** Gives both strings their numbers. */
    method AddStrings(name: string, fileName: string) returns (nameId: int, fileId: int)
      requires Interned()
      modifies this`stringsById, this`idsByString, this`lastStringId
      ensures Interned() && Extends(old(idsByString), idsByString)
      ensures name in idsByString && idsByString[name] == nameId && fileName in idsByString
      ensures idsByString[fileName] == fileId
      ensures |idsByString| <= |old(idsByString)| + 2
    {
      ghost var spins;
      nameId, spins := AddString(name);
      IdOf(name);
      fileId, spins := AddString(fileName);
      IdOf(fileName);
    }

    lemma IdOf(s: string)
      requires Interned() && GetIDbyString(s) in stringsById
      ensures s in idsByString
    {
    }

    /** Registers a region whose key is still free. */
    method AddNewRegion(rfl: int, fileName: string, name: string, startPosition: int, endPosition: int)
      returns (r: Outcome)
      requires Valid() && name != "" && fileName != "" && !Registered(name, fileName, rfl)
      modifies this
      ensures r.Added? ==> Valid() && fresh(r.region) && r.region.Is(name, fileName, rfl)
      ensures r.Added? ==> regionByRegionKey == old(regionByRegionKey)[r.region.key := r.region]
      ensures r.Added? ==> codeRegions == old(codeRegions)[RegionId(fileName, name, rfl) := r.region]
      ensures r.Added? ==> r.region.startPosition == startPosition && r.region.endPosition == endPosition
      ensures r == Aborted <==> RegionId(fileName, name, rfl) in old(codeRegions)
      ensures r.Added? && |idsByString| <= MAX_STRINGS && 0 <= rfl < MAX_LINES && old(LinesFit()) ==>
                r.region.key !in old(regionByRegionKey)
    {
      hide Interned, KeysMatch, IdsMatch, HashRegionIdent, RegionId;
      var nameId, fileId := AddStrings(name, fileName);
      StillMatch(codeRegions, regionByRegionKey, old(idsByString), idsByString);
      var newKey := HashRegionIdent(nameId, fileId, rfl);
      var region := new Region(newKey, fileId, rfl, startPosition, endPosition, fileName, name);
      MatchWith(codeRegions, regionByRegionKey, idsByString, region);
      if |idsByString| <= MAX_STRINGS && 0 <= rfl < MAX_LINES && LinesFit() && newKey in regionByRegionKey {
        HasItsKey(newKey);
        SameKeySameRegion(regionByRegionKey[newKey], name, fileName, rfl);
      }
      var id := RegionId(fileName, name, rfl);
      var stored := id !in codeRegions;
      if stored {
        codeRegions := codeRegions[id := region];
      }
      regionByRegionKey := regionByRegionKey[newKey := region];
      r := if stored then Added(region) else Aborted;
    }
  }
}
