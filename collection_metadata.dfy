/**
 * CollectionMetadataService: a title, a logo and an optional alias target
 * per collection name, kept in a JSON file. Every operation reads the file
 * afresh; the setters change the map they read and write it back.
 *
 * The file is modelled by its state: absent, present but unreadable (Jackson
 * throws), or holding a map. Reading either of the first two gives the
 * empty map. A write that throws is logged; what it leaves behind depends
 * on when it throws (WriteOutcome), which is a parameter.
 */
module CollectionMetadataStore {
  import opened Wrappers
  import opened Strings

  /** `CollectionMetadata`: each field may be null. */
  datatype Metadata = Metadata(title: Option<string>, logo: Option<string>, aliasOf: Option<string>)

  /** The no-argument constructor: every field null. */
  const NoMetadata: Metadata := Metadata(None, None, None)

  /** The metadata file. */
  datatype MetadataFile = Missing | Unreadable | Stored(entries: map<string, Metadata>)

  /**
   * How `saveMetadataToFile` ends: the data is written; the directory or the
   * file cannot be opened, so the file is not touched; or the write throws
   * after the file was opened for writing, and so emptied, leaving content
   * that cannot be read back.
   */
  datatype WriteOutcome = Written | NotOpened | BrokenOff

  /** The file after a save of `data` that ends as `write` says. */
  function AfterWrite(previous: MetadataFile, data: map<string, Metadata>, write: WriteOutcome): (f: MetadataFile)
    ensures write.Written? ==> f == Stored(data)
    ensures write.NotOpened? ==> f == previous
    ensures write.BrokenOff? ==> f == Unreadable
  {
    match write
    case Written => Stored(data)
    case NotOpened => previous
    case BrokenOff => Unreadable
  }

  /** `isAlias`: the alias target is set and not blank. */
  predicate IsAlias(e: Metadata) {
    e.aliasOf.Some? && !IsBlank(e.aliasOf.value)
  }

  /** `loadMetadataFromFile`: the stored map, or an empty one when the file is absent or cannot be read. */
  function Read(file: MetadataFile): (m: map<string, Metadata>)
    ensures file.Stored? ==> m == file.entries
    ensures !file.Stored? ==> m == map[]
  {
    if file.Stored? then file.entries else map[]
  }

  /** `computeIfAbsent(name, k -> new CollectionMetadata())`: the entry, or a fresh empty one. */
  function EntryOf(m: map<string, Metadata>, name: string): Metadata {
    if name in m then m[name] else NoMetadata
  }

  /** The map after `setTitle`: the named entry exists and has the new title; nothing else changes. */
  function WithTitle(m: map<string, Metadata>, name: string, title: Option<string>): (r: map<string, Metadata>)
    ensures r.Keys == m.Keys + {name}
    ensures r[name].title == title
    ensures r[name].logo == EntryOf(m, name).logo && r[name].aliasOf == EntryOf(m, name).aliasOf
    ensures forall k :: k in m && k != name ==> r[k] == m[k]
  {
    m[name := EntryOf(m, name).(title := title)]
  }

  /** The map after `setLogo`: the named entry exists and has the new logo; nothing else changes. */
  function WithLogo(m: map<string, Metadata>, name: string, logo: Option<string>): (r: map<string, Metadata>)
    ensures r.Keys == m.Keys + {name}
    ensures r[name].logo == logo
    ensures r[name].title == EntryOf(m, name).title && r[name].aliasOf == EntryOf(m, name).aliasOf
    ensures forall k :: k in m && k != name ==> r[k] == m[k]
  {
    m[name := EntryOf(m, name).(logo := logo)]
  }

  /** The map after `setAlias`: the named entry exists and points at the target; its own title and logo stay. */
  function WithAlias(m: map<string, Metadata>, name: string, target: Option<string>): (r: map<string, Metadata>)
    ensures r.Keys == m.Keys + {name}
    ensures r[name].aliasOf == target
    ensures r[name].title == EntryOf(m, name).title && r[name].logo == EntryOf(m, name).logo
    ensures forall k :: k in m && k != name ==> r[k] == m[k]
  {
    m[name := EntryOf(m, name).(aliasOf := target)]
  }

  /** Whether `removeAlias` removes anything: the name must be an alias. */
  predicate Removes(m: map<string, Metadata>, name: string) {
    name in m && IsAlias(m[name])
  }

  /** The map after `removeAlias`: the whole entry goes when it is an alias, otherwise nothing changes. */
  function WithoutAlias(m: map<string, Metadata>, name: string): (r: map<string, Metadata>)
    ensures Removes(m, name) ==> r.Keys == m.Keys - {name}
    ensures !Removes(m, name) ==> r == m
    ensures forall k :: k in m && k != name ==> k in r && r[k] == m[k]
  {
    if Removes(m, name) then m - {name} else m
  }

  /** `resolveCollection`: one hop through an alias, never more. */
  function Resolve(m: map<string, Metadata>, name: string): (r: string)
    ensures r == name || (name in m && m[name].aliasOf == Some(r) && !IsBlank(r))
    ensures name in m && IsAlias(m[name]) ==> Some(r) == m[name].aliasOf
  {
    if name in m && IsAlias(m[name]) then m[name].aliasOf.value else name
  }

  /** `getMetadata`: the stored entry, if any. */
  function Lookup(m: map<string, Metadata>, name: string): (r: Option<Metadata>)
    ensures r.Some? <==> name in m
    ensures r.Some? ==> r.value == m[name]
  {
    if name in m then Some(m[name]) else None
  }

  /** `getAliasOf`: the entry's alias field as stored, blank or not; null when there is no entry. */
  function AliasOf(m: map<string, Metadata>, name: string): (r: Option<string>)
    ensures name !in m ==> r == None
    ensures name in m ==> r == m[name].aliasOf
  {
    if name in m then m[name].aliasOf else None
  }

  /** `getTitle`: through an alias, the target's title (null when the target has no entry); otherwise its own. */
  function TitleOf(m: map<string, Metadata>, name: string): Option<string> {
    if name in m && IsAlias(m[name]) then
      (if m[name].aliasOf.value in m then m[m[name].aliasOf.value].title else None)
    else if name in m then m[name].title
    else None
  }

  /** `getLogo`: through an alias, the target's logo (null when the target has no entry); otherwise its own. */
  function LogoOf(m: map<string, Metadata>, name: string): Option<string> {
    if name in m && IsAlias(m[name]) then
      (if m[name].aliasOf.value in m then m[m[name].aliasOf.value].logo else None)
    else if name in m then m[name].logo
    else None
  }

  // ---------------------------------------------------------------------------
  // Properties
  // ---------------------------------------------------------------------------

  /** The title and logo lookups are the stored entry of the resolved name. */
  lemma LookupsFollowResolve(m: map<string, Metadata>, name: string)
    ensures TitleOf(m, name) == (match Lookup(m, Resolve(m, name)) case Some(e) => e.title case None => None)
    ensures LogoOf(m, name) == (match Lookup(m, Resolve(m, name)) case Some(e) => e.logo case None => None)
  {
  }

  /** Resolution follows exactly one hop: an alias of an alias resolves to the middle name. */
  lemma ResolveIsOneHop(m: map<string, Metadata>, a: string, b: string, c: string)
    requires a in m && m[a].aliasOf == Some(b) && !IsBlank(b)
    requires b in m && m[b].aliasOf == Some(c) && !IsBlank(c) && c != b
    ensures Resolve(m, a) == b && Resolve(m, a) != Resolve(m, b)
  {
  }

  /**
   * An alias never shows its own title: after `setTitle` on an alias whose
   * target is another name, `getTitle` gives what it gave before; on a name
   * that is not an alias it gives the new title.
   */
  lemma SetTitleVisibility(m: map<string, Metadata>, name: string, title: Option<string>)
    ensures Removes(m, name) && m[name].aliasOf.value != name ==> TitleOf(WithTitle(m, name, title), name) == TitleOf(m, name)
    ensures !Removes(m, name) ==> TitleOf(WithTitle(m, name, title), name) == title
  {
  }

  /** The same for the logo. */
  lemma SetLogoVisibility(m: map<string, Metadata>, name: string, logo: Option<string>)
    ensures Removes(m, name) && m[name].aliasOf.value != name ==> LogoOf(WithLogo(m, name, logo), name) == LogoOf(m, name)
    ensures !Removes(m, name) ==> LogoOf(WithLogo(m, name, logo), name) == logo
  {
  }

  /**
   * `setAlias` with a non-blank target makes the name resolve to it, and
   * `removeAlias` then drops the entry altogether; with a null or blank
   * target the name resolves to itself and `removeAlias` changes nothing.
   */
  lemma SetAliasThenRemove(m: map<string, Metadata>, name: string, target: Option<string>)
    ensures var r := WithAlias(m, name, target);
      (target.Some? && !IsBlank(target.value) ==>
        Resolve(r, name) == target.value && WithoutAlias(r, name) == m - {name})
      && (target.None? || IsBlank(target.value) ==> Resolve(r, name) == name && WithoutAlias(r, name) == r)
  {
    var r := WithAlias(m, name, target);
    if target.Some? && !IsBlank(target.value) {
      assert WithoutAlias(r, name).Keys == (m - {name}).Keys;
    }
  }

  /** A setter that reads an absent or unreadable file writes back a map holding its own entry only. */
  lemma SetterAfterFailedRead(file: MetadataFile, name: string, title: Option<string>)
    requires !file.Stored?
    ensures WithTitle(Read(file), name, title) == map[name := Metadata(title, None, None)]
    ensures WithLogo(Read(file), name, title) == map[name := Metadata(None, title, None)]
    ensures WithAlias(Read(file), name, title) == map[name := Metadata(None, None, title)]
  {
  }

  /**
   * What the next read sees after a save: the data when it was written, the
   * old contents when the file could not be opened, and no entries at all
   * when the write broke off.
   */
  lemma ReadAfterWrite(previous: MetadataFile, data: map<string, Metadata>, write: WriteOutcome)
    ensures Read(AfterWrite(previous, data, write))
      == (if write.Written? then data else if write.NotOpened? then Read(previous) else map[])
    ensures write.BrokenOff? ==> forall name :: Lookup(Read(AfterWrite(previous, data, write)), name) == None
  {
  }

  /** Setting a title on one name leaves every other name's lookups as they were, unless it aliases that name. */
  lemma SetTitleLeavesOthers(m: map<string, Metadata>, name: string, other: string, title: Option<string>)
    requires other != name && Resolve(m, other) != name
    ensures TitleOf(WithTitle(m, name, title), other) == TitleOf(m, other)
    ensures Resolve(WithTitle(m, name, title), other) == Resolve(m, other)
  {
  }

  // ---------------------------------------------------------------------------
  // The service
  // ---------------------------------------------------------------------------

  class CollectionMetadataService {
    /** The metadata file on disk. */
    var file: MetadataFile
    /** The map `init` fills; no operation reads it. */
    var metadata: map<string, Metadata>

    constructor(file: MetadataFile)
      ensures this.file == file && metadata == map[]
    {
      this.file := file;
      metadata := map[];
    }

    /** `init` / `loadMetadata`: the stored entries are put into `metadata`; a missing or unreadable file adds none. */
    method Init()
      modifies this
      ensures metadata == old(metadata) + Read(file) && file == old(file)
    {
      if file.Stored? {
        metadata := metadata + file.entries;
      }
    }

    /** `loadMetadataFromFile`. */
    method LoadMetadataFromFile() returns (m: map<string, Metadata>)
      ensures m == Read(file)
      ensures !file.Stored? ==> m == map[]
    {
      match file
      case Stored(entries) => m := entries;
      case Missing => m := map[];
      case Unreadable => m := map[];
    }

    /**
     * `saveMetadataToFile`: the map replaces the file; a write that cannot
     * open the file leaves it alone, and one that breaks off leaves it unreadable.
     */
    method SaveMetadataToFile(data: map<string, Metadata>, write: WriteOutcome)
      modifies this
      ensures write.Written? ==> file == Stored(data)
      ensures write.NotOpened? ==> file == old(file)
      ensures write.BrokenOff? ==> file == Unreadable
      ensures metadata == old(metadata)
    {
      match write
      case Written => file := Stored(data);
      case NotOpened =>
      case BrokenOff => file := Unreadable;
    }

    /** `setTitle`. */
    method SetTitle(collectionName: string, title: Option<string>, write: WriteOutcome)
      modifies this
      ensures file == AfterWrite(old(file), WithTitle(Read(old(file)), collectionName, title), write)
      ensures metadata == old(metadata)
    {
      var current := LoadMetadataFromFile();
      var meta := if collectionName in current then current[collectionName] else NoMetadata;
      current := current[collectionName := meta.(title := title)];
      SaveMetadataToFile(current, write);
    }

    /** `setLogo`. */
    method SetLogo(collectionName: string, logo: Option<string>, write: WriteOutcome)
      modifies this
      ensures file == AfterWrite(old(file), WithLogo(Read(old(file)), collectionName, logo), write)
      ensures metadata == old(metadata)
    {
      var current := LoadMetadataFromFile();
      var meta := if collectionName in current then current[collectionName] else NoMetadata;
      current := current[collectionName := meta.(logo := logo)];
      SaveMetadataToFile(current, write);
    }

    /** `setAlias`. */
    method SetAlias(aliasName: string, targetCollection: Option<string>, write: WriteOutcome)
      modifies this
      ensures file == AfterWrite(old(file), WithAlias(Read(old(file)), aliasName, targetCollection), write)
      ensures metadata == old(metadata)
    {
      var current := LoadMetadataFromFile();
      var aliasMeta := if aliasName in current then current[aliasName] else NoMetadata;
      current := current[aliasName := aliasMeta.(aliasOf := targetCollection)];
      SaveMetadataToFile(current, write);
    }

    /** `removeAlias`: the file is rewritten only when the name is an alias. */
    method RemoveAlias(aliasName: string, write: WriteOutcome)
      modifies this
      ensures file == (if Removes(Read(old(file)), aliasName)
        then AfterWrite(old(file), Read(old(file)) - {aliasName}, write) else old(file))
      ensures metadata == old(metadata)
    {
      var current := LoadMetadataFromFile();
      if aliasName in current && IsAlias(current[aliasName]) {
        current := current - {aliasName};
        SaveMetadataToFile(current, write);
      }
    }

    /** `resolveCollection`. */
    method ResolveCollection(collectionName: string) returns (r: string)
      ensures r == Resolve(Read(file), collectionName)
    {
      var allMetadata := LoadMetadataFromFile();
      if collectionName in allMetadata && IsAlias(allMetadata[collectionName]) {
        return allMetadata[collectionName].aliasOf.value;
      }
      return collectionName;
    }

    /** `getAliasOf`. */
    method GetAliasOf(collectionName: string) returns (r: Option<string>)
      ensures r == AliasOf(Read(file), collectionName)
    {
      var allMetadata := LoadMetadataFromFile();
      r := if collectionName in allMetadata then allMetadata[collectionName].aliasOf else None;
    }

    /** `getTitle`. */
    method GetTitle(collectionName: string) returns (r: Option<string>)
      ensures r == TitleOf(Read(file), collectionName)
    {
      var allMetadata := LoadMetadataFromFile();
      if collectionName in allMetadata && IsAlias(allMetadata[collectionName]) {
        var target := allMetadata[collectionName].aliasOf.value;
        return if target in allMetadata then allMetadata[target].title else None;
      }
      r := if collectionName in allMetadata then allMetadata[collectionName].title else None;
    }

    /** `getLogo`. */
    method GetLogo(collectionName: string) returns (r: Option<string>)
      ensures r == LogoOf(Read(file), collectionName)
    {
      var allMetadata := LoadMetadataFromFile();
      if collectionName in allMetadata && IsAlias(allMetadata[collectionName]) {
        var target := allMetadata[collectionName].aliasOf.value;
        return if target in allMetadata then allMetadata[target].logo else None;
      }
      r := if collectionName in allMetadata then allMetadata[collectionName].logo else None;
    }

    /** `getMetadata`. */
    method GetMetadata(collectionName: string) returns (r: Option<Metadata>)
      ensures r == Lookup(Read(file), collectionName)
    {
      var allMetadata := LoadMetadataFromFile();
      r := if collectionName in allMetadata then Some(allMetadata[collectionName]) else None;
    }
  }
}
