/**
 * The page-content store (src/contexts/StoreContext.tsx): the page content in
 * memory, mirrored to the `store-data` local-storage entry and to the single
 * row of the remote `store_settings` table. The remote table is a sequence of
 * rows; each backend request's outcome (answered, answered with an error
 * object, or thrown) is a parameter, and the requests issued are recorded in
 * order in `effects` together with the cache writes.
 */
module StoreContext {
  import opened Wrappers
  import Json
  import opened BrowserStorage

  // ---------------------------------------------------------------- data model

  datatype Action = Action(title: string, subtitle: string, href: string, icon: string)

  datatype SocialLinks = SocialLinks(instagram: string, tiktok: string, phone: string, location: string)

  datatype StoreData = StoreData(
    name: string,
    description: string,
    logo: string,
    logoImage: string,
    backgroundVideo: string,
    backgroundImage: string,
    whatsappMessage: string,
    socialLinks: SocialLinks,
    mainActions: seq<Action>,
    secondaryActions: seq<Action>)

  /** `Partial<StoreData>`: a field that is `None` is absent from the object. */
  datatype Partial = Partial(
    name: Option<string>,
    description: Option<string>,
    logo: Option<string>,
    logoImage: Option<string>,
    backgroundVideo: Option<string>,
    backgroundImage: Option<string>,
    whatsappMessage: Option<string>,
    socialLinks: Option<SocialLinks>,
    mainActions: Option<seq<Action>>,
    secondaryActions: Option<seq<Action>>)

  /** `{}` */
  const NoChange: Partial := Partial(None, None, None, None, None, None, None, None, None, None)

  /** The local-storage key of the cached copy. */
  const CacheKey: string := "store-data"

  /** The path that stands for the bundled background video. */
  const BundledVideoPath: string := "src/assets/background-video.mp4"

  /** The id that the reset's delete spares (`.neq('id', ...)`). */
  const NilId: string := "00000000-0000-0000-0000-000000000000"

  /** The hardcoded page content: three main and three secondary actions. Accented texts
      are kept exactly as the source file has them, which is UTF-8 decoded a second time
      as Mac Roman (`Ol\u221A\u00B0` stands where `Ol\u00E1` is meant). */
  function DefaultData(): (d: StoreData)
    ensures |d.mainActions| == 3 && |d.secondaryActions| == 3
    ensures d.backgroundVideo == BundledVideoPath && d.backgroundImage == ""
  {
    StoreData(DefaultName, DefaultDescription, DefaultLogo, DefaultLogoImage, BundledVideoPath, "",
              DefaultGreeting, DefaultSocialLinks, DefaultMainActions, DefaultSecondaryActions)
  }

  const DefaultName: string := "GRIFFES MIL GRAU"

  const DefaultDescription: string := "AUMENTE SUA AUTOESTIMA MONTANDO UM KIT NOVO"

  const DefaultLogo: string := "\U{F8FF}\U{FC}\U{EB}\U{EE}"

  const DefaultLogoImage: string := "/lovable-uploads/cf93430e-b1b6-417e-ad5d-9896eff54b2f.png"

  const DefaultGreeting: string :=
    "Ol\U{221A}\U{B0}! Vi seu perfil e tenho interesse nos produtos da GRIFFES MIL GRAU. Pode me ajudar?"

  const DefaultSocialLinks: SocialLinks :=
    SocialLinks("https://instagram.com", "https://tiktok.com", "tel:+5511999999999", "https://maps.google.com")

  const DefaultMainActions: seq<Action> := [
    Action("CAT\U{221A}\U{C5}LOGO", "Veja nossa cole\U{221A}\U{DF}\U{221A}\U{A3}o completa", "https://catalogo.com", "Grid3X3"),
    Action("LOCALIZA\U{221A}\U{E1}\U{221A}\U{C9}O", "Encontre nossa loja", "https://maps.google.com", "MapPin"),
    Action("ATENDIMENTO WHATSAPP", "Fale conosco agora", "https://wa.me/5511999999999", "MessageCircle")]

  const DefaultSecondaryActions: seq<Action> := [
    Action("DELIVERY", "Entrega r\U{221A}\U{B0}pida", "#delivery", "Package"),
    Action("FRETE", "Consulte valores", "#frete", "Truck"),
    Action("AVALIA\U{221A}\U{E1}\U{221A}\U{EF}ES", "Veja opini\U{221A}\U{B5}es", "#avaliacoes", "Star")]

  // ---------------------------------------------------------------- merge

  /** `{ ...d, ...p }`: each field present in `p` takes `p`'s value, every other keeps `d`'s;
      the social links and the action lists are replaced whole, never merged. */
  function Merge(d: StoreData, p: Partial): (r: StoreData)
    ensures p.name.Some? ==> r.name == p.name.value
    ensures p.name.None? ==> r.name == d.name
    ensures p.description.Some? ==> r.description == p.description.value
    ensures p.description.None? ==> r.description == d.description
    ensures p.logo.Some? ==> r.logo == p.logo.value
    ensures p.logo.None? ==> r.logo == d.logo
    ensures p.logoImage.Some? ==> r.logoImage == p.logoImage.value
    ensures p.logoImage.None? ==> r.logoImage == d.logoImage
    ensures p.backgroundVideo.Some? ==> r.backgroundVideo == p.backgroundVideo.value
    ensures p.backgroundVideo.None? ==> r.backgroundVideo == d.backgroundVideo
    ensures p.backgroundImage.Some? ==> r.backgroundImage == p.backgroundImage.value
    ensures p.backgroundImage.None? ==> r.backgroundImage == d.backgroundImage
    ensures p.whatsappMessage.Some? ==> r.whatsappMessage == p.whatsappMessage.value
    ensures p.whatsappMessage.None? ==> r.whatsappMessage == d.whatsappMessage
    ensures p.socialLinks.Some? ==> r.socialLinks == p.socialLinks.value
    ensures p.socialLinks.None? ==> r.socialLinks == d.socialLinks
    ensures p.mainActions.Some? ==> r.mainActions == p.mainActions.value
    ensures p.mainActions.None? ==> r.mainActions == d.mainActions
    ensures p.secondaryActions.Some? ==> r.secondaryActions == p.secondaryActions.value
    ensures p.secondaryActions.None? ==> r.secondaryActions == d.secondaryActions
  {
    StoreData(
      p.name.GetOr(d.name),
      p.description.GetOr(d.description),
      p.logo.GetOr(d.logo),
      p.logoImage.GetOr(d.logoImage),
      p.backgroundVideo.GetOr(d.backgroundVideo),
      p.backgroundImage.GetOr(d.backgroundImage),
      p.whatsappMessage.GetOr(d.whatsappMessage),
      p.socialLinks.GetOr(d.socialLinks),
      p.mainActions.GetOr(d.mainActions),
      p.secondaryActions.GetOr(d.secondaryActions))
  }

  /** The spread of two partial objects, `{ ...p, ...q }`. */
  function Then(p: Partial, q: Partial): Partial {
    Partial(
      if q.name.Some? then q.name else p.name,
      if q.description.Some? then q.description else p.description,
      if q.logo.Some? then q.logo else p.logo,
      if q.logoImage.Some? then q.logoImage else p.logoImage,
      if q.backgroundVideo.Some? then q.backgroundVideo else p.backgroundVideo,
      if q.backgroundImage.Some? then q.backgroundImage else p.backgroundImage,
      if q.whatsappMessage.Some? then q.whatsappMessage else p.whatsappMessage,
      if q.socialLinks.Some? then q.socialLinks else p.socialLinks,
      if q.mainActions.Some? then q.mainActions else p.mainActions,
      if q.secondaryActions.Some? then q.secondaryActions else p.secondaryActions)
  }

  /** Every field of `d`, as a partial object. */
  function Whole(d: StoreData): Partial {
    Partial(Some(d.name), Some(d.description), Some(d.logo), Some(d.logoImage),
            Some(d.backgroundVideo), Some(d.backgroundImage), Some(d.whatsappMessage),
            Some(d.socialLinks), Some(d.mainActions), Some(d.secondaryActions))
  }

  /** Merging nothing changes nothing. */
  lemma MergeNothing(d: StoreData)
    ensures Merge(d, NoChange) == d
  {
  }

  /** Merging the same partial object twice is merging it once. */
  lemma MergeIdempotent(d: StoreData, p: Partial)
    ensures Merge(Merge(d, p), p) == Merge(d, p)
  {
  }

  /** Two updates in a row are one update with the later fields winning. */
  lemma MergeSequential(d: StoreData, p: Partial, q: Partial)
    ensures Merge(Merge(d, p), q) == Merge(d, Then(p, q))
  {
  }

  /** A complete object replaces the data outright. */
  lemma MergeWhole(d: StoreData, e: StoreData)
    ensures Merge(d, Whole(e)) == e
  {
  }

  // ---------------------------------------------------------------- cache serialisation

  function ActionFields(actions: seq<Action>): (fs: seq<string>)
    ensures |fs| == 4 * |actions|
  {
    if actions == [] then []
    else [actions[0].title, actions[0].subtitle, actions[0].href, actions[0].icon] + ActionFields(actions[1..])
  }

  function ParseActions(fs: seq<string>): Option<seq<Action>>
    decreases |fs|
  {
    if fs == [] then Some([])
    else if |fs| < 4 then None
    else match ParseActions(fs[4..])
      case None => None
      case Some(rest) => Some([Action(fs[0], fs[1], fs[2], fs[3])] + rest)
  }

  lemma {:induction false} ParseActionFields(actions: seq<Action>)
    ensures ParseActions(ActionFields(actions)) == Some(actions)
    decreases |actions|
  {
    if actions != [] {
      var fs := ActionFields(actions);
      assert fs[4..] == ActionFields(actions[1..]);
      ParseActionFields(actions[1..]);
      assert [actions[0]] + actions[1..] == actions;
    }
  }

  function DataFields(d: StoreData): seq<string> {
    [d.name, d.description, d.logo, d.logoImage, d.backgroundVideo, d.backgroundImage, d.whatsappMessage,
     d.socialLinks.instagram, d.socialLinks.tiktok, d.socialLinks.phone, d.socialLinks.location,
     Json.Stringify(ActionFields(d.mainActions)), Json.Stringify(ActionFields(d.secondaryActions))]
  }

  /** `JSON.stringify(d)`: never the empty text, so the cache fallback reads it. */
  function Serialize(d: StoreData): (r: string)
    ensures r != ""
  {
    Json.Stringify(DataFields(d))
  }

  /** `JSON.parse(s)` read as page content; `None` where the parse would throw. Only a
      record of the thirteen stored fields is content. */
  function Parse(s: string): (r: Option<StoreData>)
    ensures r.Some? ==> Json.Parse(s).Some? && |Json.Parse(s).value| == 13
  {
    match Json.Parse(s)
    case Some(fs) =>
      if |fs| != 13 then None
      else
        var main := Json.Parse(fs[11]);
        var secondary := Json.Parse(fs[12]);
        if main.None? || secondary.None? then None
        else
          var mainActions := ParseActions(main.value);
          var secondaryActions := ParseActions(secondary.value);
          if mainActions.None? || secondaryActions.None? then None
          else Some(StoreData(fs[0], fs[1], fs[2], fs[3], fs[4], fs[5], fs[6],
                              SocialLinks(fs[7], fs[8], fs[9], fs[10]),
                              mainActions.value, secondaryActions.value))
    case None => None
  }

  /** The cached copy reads back as the data that was cached. */
  lemma ParseSerialize(d: StoreData)
    ensures Parse(Serialize(d)) == Some(d)
  {
    Json.ParseStringify(DataFields(d));
    Json.ParseStringify(ActionFields(d.mainActions));
    Json.ParseStringify(ActionFields(d.secondaryActions));
    ParseActionFields(d.mainActions);
    ParseActionFields(d.secondaryActions);
  }

  // ---------------------------------------------------------------- the remote row

  /** The columns of a `store_settings` row. */
  datatype Columns = Columns(
    name: string,
    description: string,
    logo: string,
    logo_image: string,
    background_video: string,
    background_image: string,
    whatsapp_message: string,
    social_links: SocialLinks,
    main_actions: seq<Action>,
    secondary_actions: seq<Action>)

  datatype Row = Row(id: string, columns: Columns)

  /** The field-to-column mapping of the update and insert requests. */
  function ToColumns(d: StoreData): (c: Columns)
    ensures c.background_video == d.backgroundVideo
  {
    Columns(d.name, d.description, d.logo, d.logoImage, d.backgroundVideo, d.backgroundImage,
            d.whatsappMessage, d.socialLinks, d.mainActions, d.secondaryActions)
  }

  /** The column-to-field mapping of the load step. An empty `background_video` loads
      as the bundled video path, so the loaded data never has an empty video; otherwise
      the mapping is the exact inverse of `ToColumns`. */
  function FromColumns(c: Columns): (d: StoreData)
    ensures d.backgroundVideo != ""
    ensures c.background_video == "" ==> d.backgroundVideo == BundledVideoPath
    ensures c.background_video != "" ==> ToColumns(d) == c
  {
    StoreData(c.name, c.description, c.logo, c.logo_image,
              if c.background_video == "" then BundledVideoPath else c.background_video,
              c.background_image, c.whatsapp_message, c.social_links, c.main_actions, c.secondary_actions)
  }

  /** Writing then loading reproduces the data whenever its video path is non-empty. */
  lemma LoadAfterWrite(d: StoreData)
    requires d.backgroundVideo != ""
    ensures FromColumns(ToColumns(d)) == d
  {
  }

  /** `.update(cols).eq('id', id)` */
  function UpdateWhere(rows: seq<Row>, id: string, cols: Columns): (r: seq<Row>)
    ensures |r| == |rows|
    ensures forall i :: 0 <= i < |r| ==> r[i].id == rows[i].id
    ensures forall i :: 0 <= i < |r| ==> r[i].columns == if rows[i].id == id then cols else rows[i].columns
  {
    seq(|rows|, i requires 0 <= i < |rows| => if rows[i].id == id then Row(id, cols) else rows[i])
  }

  /** `.delete().neq('id', id)`: the rows left are those whose id is `id`. */
  function KeepWithId(rows: seq<Row>, id: string): (r: seq<Row>)
    ensures forall i :: 0 <= i < |r| ==> r[i].id == id && r[i] in rows
    ensures forall row :: row in rows && row.id == id ==> row in r
    ensures forall row {:trigger multiset(r)[row]} :: multiset(r)[row] == if row.id == id then multiset(rows)[row] else 0
  {
    assert rows != [] ==> rows == [rows[0]] + rows[1..];
    if rows == [] then []
    else (if rows[0].id == id then [rows[0]] else []) + KeepWithId(rows[1..], id)
  }

  datatype Outcome = Succeeds | ReturnsError | Throws

  datatype Request = Select | Update(id: string, columns: Columns) | Insert(columns: Columns) | DeleteAllBut(id: string)

  datatype Effect = CacheWrite(value: string) | Remote(request: Request)

  /** The requests a save issues: the lookup of the existing row, then an update of
      that row by its id when the lookup returned one, otherwise an insert. A lookup
      that throws ends the save. A lookup that answers with an error yields no row,
      so it is followed by an insert. */
  function SaveRequests(rows: seq<Row>, cols: Columns, lookup: Outcome): (r: seq<Effect>)
    ensures |r| == if lookup == Throws then 1 else 2
    ensures r[0] == Remote(Select)
  {
    [Remote(Select)]
    + if lookup == Throws then []
      else if lookup == Succeeds && |rows| > 0 then [Remote(Update(rows[0].id, cols))]
      else [Remote(Insert(cols))]
  }

  /** The table after a save; a write that fails (error object or exception) changes nothing. */
  function RowsAfterSave(rows: seq<Row>, cols: Columns, lookup: Outcome, write: Outcome, newId: string): (r: seq<Row>)
    ensures lookup == Throws || write != Succeeds ==> r == rows
    ensures |r| == |rows| + 1 <==> lookup != Throws && write == Succeeds && !(lookup == Succeeds && |rows| > 0)
    ensures |r| == |rows| || |r| == |rows| + 1
    ensures forall i :: 0 <= i < |rows| ==> r[i].id == rows[i].id
  {
    if lookup == Throws || write != Succeeds then rows
    else if lookup == Succeeds && |rows| > 0 then UpdateWhere(rows, rows[0].id, cols)
    else rows + [Row(newId, cols)]
  }

  /** A save writes at most once: an update or an insert, never both. */
  lemma SaveWritesOnce(rows: seq<Row>, cols: Columns, lookup: Outcome)
    ensures var rs := SaveRequests(rows, cols, lookup);
      rs[0] == Remote(Select)
      && (lookup == Throws <==> |rs| == 1)
      && (lookup != Throws ==>
            (|rs| == 2
             && (rs[1].request.Update? <==> lookup == Succeeds && |rows| > 0)
             && (rs[1].request.Insert? <==> !(lookup == Succeeds && |rows| > 0))))
  {
  }

  /** After a successful write that followed a successful lookup, or one into an empty
      table, the row the next load reads back holds the saved data. */
  lemma SaveThenLoad(rows: seq<Row>, d: StoreData, lookup: Outcome, newId: string)
    requires lookup != Throws && d.backgroundVideo != ""
    requires lookup == Succeeds || rows == []
    ensures var after := RowsAfterSave(rows, ToColumns(d), lookup, Succeeds, newId);
      |after| > 0 && FromColumns(after[0].columns) == d
  {
    var after := RowsAfterSave(rows, ToColumns(d), lookup, Succeeds, newId);
    if rows == [] {
      assert after == [Row(newId, ToColumns(d))];
    } else {
      assert after[0].columns == ToColumns(d);
    }
  }

  /** A lookup that answers with an error while a row exists is ignored: the save inserts
      a second row, and the next load, which reads the first row, gets the old content
      back whenever it differs from the saved data. */
  lemma StaleRowAfterErroredLookup(rows: seq<Row>, d: StoreData, newId: string)
    requires |rows| > 0 && rows[0].columns != ToColumns(d) && rows[0].columns.background_video != ""
    ensures var after := RowsAfterSave(rows, ToColumns(d), ReturnsError, Succeeds, newId);
      |after| == |rows| + 1 && after[0] == rows[0] && after[|rows|] == Row(newId, ToColumns(d))
      && FromColumns(after[0].columns) != d
  {
  }

  /** What the exception path of the load falls back to: the cached copy when
      there is a non-empty one that parses, otherwise the current data. */
  function CachedOr(items: map<string, string>, current: StoreData): (r: StoreData)
    ensures r == current || (CacheKey in items && Parse(items[CacheKey]) == Some(r))
  {
    if CacheKey in items && items[CacheKey] != "" && Parse(items[CacheKey]).Some?
    then Parse(items[CacheKey]).value
    else current
  }

  /** The fallback reads back the content last written to the cache. */
  lemma CacheReadsLastWrite(items: map<string, string>, d: StoreData, current: StoreData)
    ensures CachedOr(items[CacheKey := Serialize(d)], current) == d
  {
    ParseSerialize(d);
  }

  // ---------------------------------------------------------------- the provider

  class Store {
    var data: StoreData
    var loading: bool
    /** The remote `store_settings` table. */
    var rows: seq<Row>
    /** Cache writes and backend requests, in the order they were made. */
    var effects: seq<Effect>
    const storage: LocalStorage
    /** `defaultData`, which the provider starts from and resets to. */
    const defaults: StoreData

    constructor (storage: LocalStorage, rows: seq<Row>)
      ensures defaults == DefaultData()
      ensures data == defaults && loading
      ensures this.storage == storage && this.rows == rows && effects == []
    {
      this.storage := storage;
      this.rows := rows;
      defaults := DefaultData();
      data := defaults;
      loading := true;
      effects := [];
    }

    /** The whole effect of `UpdateData(p, lookup, write, newId)`. */
    twostate predicate UpdatedWith(p: Partial, lookup: Outcome, write: Outcome, newId: string)
      reads this, storage
    {
      && data == Merge(old(data), p)
      && storage.items == old(storage.items)[CacheKey := Serialize(data)]
      && loading == old(loading)
      && rows == RowsAfterSave(old(rows), ToColumns(data), lookup, write, newId)
      && effects == old(effects) + [CacheWrite(Serialize(data))] + SaveRequests(old(rows), ToColumns(data), lookup)
    }

    /** `loadDataFromSupabase`: `lookup` is how the select of the first row ends. */
    method Load(lookup: Outcome)
      modifies this, storage
      ensures !loading
      ensures rows == old(rows)
      ensures effects == old(effects) + [Remote(Select)]
        + if lookup == Succeeds && |rows| > 0 then [CacheWrite(Serialize(data))] else []
      ensures lookup == ReturnsError ==> data == old(data) && storage.items == old(storage.items)
      ensures lookup == Succeeds && |rows| == 0 ==> data == old(data) && storage.items == old(storage.items)
      ensures lookup == Succeeds && |rows| > 0 ==>
        data == FromColumns(rows[0].columns) && storage.items == old(storage.items)[CacheKey := Serialize(data)]
      ensures lookup == Throws ==>
        data == CachedOr(old(storage.items), old(data)) && storage.items == old(storage.items)
    {
      loading := true;
      effects := effects + [Remote(Select)];
      if lookup == Succeeds {
        if |rows| > 0 {
          var loaded := FromColumns(rows[0].columns);
          data := loaded;
          storage.SetItem(CacheKey, Serialize(loaded));
          effects := effects + [CacheWrite(Serialize(loaded))];
        }
      } else if lookup == Throws {
        var saved := storage.GetItem(CacheKey);
        if saved.Some? && saved.value != "" {
          var parsed := Parse(saved.value);
          if parsed.Some? {
            data := parsed.value;
          }
        }
      }
      loading := false;
    }

    /** `updateData(p)`: merge, cache, then update the existing row or insert one.
        `lookup` is how the select of the existing row ends, `write` how the update
        or insert ends, `newId` the id the backend gives an inserted row. Remote
        failures are only logged. */
    method UpdateData(p: Partial, lookup: Outcome, write: Outcome, newId: string)
      modifies this, storage
      ensures UpdatedWith(p, lookup, write, newId)
    {
      var updated := Merge(data, p);
      var cols := ToColumns(updated);
      var before := effects + [CacheWrite(Serialize(updated))];
      data := updated;
      storage.SetItem(CacheKey, Serialize(updated));
      effects := before + [Remote(Select)];
      if lookup != Throws {
        if lookup == Succeeds && |rows| > 0 {
          var id := rows[0].id;
          effects := effects + [Remote(Update(id, cols))];
          assert effects == before + SaveRequests(old(rows), cols, lookup);
          if write == Succeeds {
            rows := UpdateWhere(rows, id, cols);
          }
        } else {
          effects := effects + [Remote(Insert(cols))];
          assert effects == before + SaveRequests(old(rows), cols, lookup);
          if write == Succeeds {
            rows := rows + [Row(newId, cols)];
          }
        }
      }
    }

    /** `resetData`: defaults in memory and in the cache, then delete every row but the
        nil id and insert the defaults, even when the delete answered with an error. */
    method ResetData(delete: Outcome, insert: Outcome, newId: string)
      modifies this, storage
      ensures data == defaults
      ensures storage.items == old(storage.items)[CacheKey := Serialize(defaults)]
      ensures loading == old(loading)
      ensures var kept := if delete == Succeeds then KeepWithId(old(rows), NilId) else old(rows);
        rows == if delete != Throws && insert == Succeeds then kept + [Row(newId, ToColumns(defaults))] else kept
      ensures effects == old(effects) + [CacheWrite(Serialize(defaults)), Remote(DeleteAllBut(NilId))]
        + if delete == Throws then [] else [Remote(Insert(ToColumns(defaults)))]
    {
      var text := Serialize(defaults);
      var cols := ToColumns(defaults);
      data := defaults;
      storage.SetItem(CacheKey, text);
      effects := effects + [CacheWrite(text), Remote(DeleteAllBut(NilId))];
      if delete != Throws {
        if delete == Succeeds {
          rows := KeepWithId(rows, NilId);
        }
        effects := effects + [Remote(Insert(cols))];
        if insert == Succeeds {
          rows := rows + [Row(newId, cols)];
        }
      }
    }
  }

  /** After an update the cache holds exactly the new data, and it is written before
      any backend request. */
  lemma CacheWrittenFirst(before: seq<Effect>, d: StoreData, rows: seq<Row>, lookup: Outcome)
    ensures var added := [CacheWrite(Serialize(d))] + SaveRequests(rows, ToColumns(d), lookup);
      added[0] == CacheWrite(Serialize(d))
      && (forall i :: 1 <= i < |added| ==> added[i].Remote?)
      && Parse(added[0].value) == Some(d)
  {
    ParseSerialize(d);
  }
}
