/**
 * The edit handlers of the admin panel (src/pages/AdminPanel.tsx): one-field
 * edits, the indexed edit of a main action, and file upload or removal. Every
 * handler ends in the store's `updateData`; the storage upload is a call whose
 * success and public URL are parameters, and `Date.now()` and the random part
 * of the generated file name are given as their rendered text.
 */
module AdminPanel {
  import opened Wrappers
  import opened JsString
  import opened StoreContext

  // ---------------------------------------------------------------- one-field edits

  /** The string-valued top-level fields of the page content. */
  datatype TextField = Name | Description | Logo | LogoImage | BackgroundVideo | BackgroundImage | WhatsappMessage

  function TextOf(d: StoreData, f: TextField): string {
    match f
    case Name => d.name
    case Description => d.description
    case Logo => d.logo
    case LogoImage => d.logoImage
    case BackgroundVideo => d.backgroundVideo
    case BackgroundImage => d.backgroundImage
    case WhatsappMessage => d.whatsappMessage
  }

  /** `{ [field]: value }` */
  function FieldPatch(f: TextField, v: string): Partial {
    match f
    case Name => NoChange.(name := Some(v))
    case Description => NoChange.(description := Some(v))
    case Logo => NoChange.(logo := Some(v))
    case LogoImage => NoChange.(logoImage := Some(v))
    case BackgroundVideo => NoChange.(backgroundVideo := Some(v))
    case BackgroundImage => NoChange.(backgroundImage := Some(v))
    case WhatsappMessage => NoChange.(whatsappMessage := Some(v))
  }

  /** A one-field edit changes exactly that field: every other text field, the social
      links and both action lists keep their values. */
  lemma FieldPatchChangesOnlyField(d: StoreData, f: TextField, v: string)
    ensures var r := Merge(d, FieldPatch(f, v));
      && TextOf(r, f) == v
      && (forall g :: g != f ==> TextOf(r, g) == TextOf(d, g))
      && r.socialLinks == d.socialLinks
      && r.mainActions == d.mainActions
      && r.secondaryActions == d.secondaryActions
  {
  }

  /** `handleInputChange(field, value)` */
  method HandleInputChange(store: Store, f: TextField, v: string, lookup: Outcome, write: Outcome, newId: string)
    modifies store, store.storage
    ensures store.UpdatedWith(FieldPatch(f, v), lookup, write, newId)
  {
    store.UpdateData(FieldPatch(f, v), lookup, write, newId);
  }

  // ---------------------------------------------------------------- main action edits

  datatype ActionField = Title | Subtitle | Href | Icon

  function ActionFieldOf(a: Action, f: ActionField): string {
    match f
    case Title => a.title
    case Subtitle => a.subtitle
    case Href => a.href
    case Icon => a.icon
  }

  /** `{ ...a, [field]: value }` */
  function WithActionField(a: Action, f: ActionField, v: string): (r: Action)
    ensures ActionFieldOf(r, f) == v
    ensures forall g :: g != f ==> ActionFieldOf(r, g) == ActionFieldOf(a, g)
  {
    match f
    case Title => a.(title := v)
    case Subtitle => a.(subtitle := v)
    case Href => a.(href := v)
    case Icon => a.(icon := v)
  }

  /** The copied array with entry `i` given `field = value`: same length, entry `i` changed
      in that field only, every other entry unchanged. */
  function SetActionField(actions: seq<Action>, i: nat, f: ActionField, v: string): (r: seq<Action>)
    requires i < |actions|
    ensures |r| == |actions|
    ensures ActionFieldOf(r[i], f) == v
    ensures forall g :: g != f ==> ActionFieldOf(r[i], g) == ActionFieldOf(actions[i], g)
    ensures forall j :: 0 <= j < |r| && j != i ==> r[j] == actions[j]
  {
    actions[i := WithActionField(actions[i], f, v)]
  }

  /** Writing back the previous value of the field undoes an edit. */
  lemma SetActionFieldUndo(actions: seq<Action>, i: nat, f: ActionField, v: string)
    requires i < |actions|
    ensures SetActionField(SetActionField(actions, i, f, v), i, f, ActionFieldOf(actions[i], f)) == actions
  {
    var edited := SetActionField(actions, i, f, v);
    var restored := SetActionField(edited, i, f, ActionFieldOf(actions[i], f));
    assert restored[i] == actions[i] by {
      match f
      case Title =>
      case Subtitle =>
      case Href =>
      case Icon =>
    }
  }

  function MainActionsPatch(actions: seq<Action>): Partial {
    NoChange.(mainActions := Some(actions))
  }

  /** `handleMainActionChange(index, field, value)`: the panel only offers indexes of existing actions. */
  method HandleMainActionChange(store: Store, i: nat, f: ActionField, v: string,
                                lookup: Outcome, write: Outcome, newId: string)
    requires i < |store.data.mainActions|
    modifies store, store.storage
    ensures store.UpdatedWith(MainActionsPatch(SetActionField(old(store.data.mainActions), i, f, v)), lookup, write, newId)
  {
    var edited := SetActionField(store.data.mainActions, i, f, v);
    store.UpdateData(MainActionsPatch(edited), lookup, write, newId);
  }

  // ---------------------------------------------------------------- uploads

  datatype UploadType = LogoUpload | LogoImageUpload | BackgroundImageUpload | BackgroundVideoUpload

  /** The field an upload or removal writes: the logo image for both logo types, so the
      `logo` text is never touched. */
  function TargetField(t: UploadType): (f: TextField)
    ensures f != Logo
    ensures f == LogoImage <==> (t == LogoUpload || t == LogoImageUpload)
    ensures f == BackgroundImage <==> t == BackgroundImageUpload
    ensures f == BackgroundVideo <==> t == BackgroundVideoUpload
  {
    match t
    case LogoUpload => LogoImage
    case LogoImageUpload => LogoImage
    case BackgroundImageUpload => BackgroundImage
    case BackgroundVideoUpload => BackgroundVideo
  }

  /** No upload or removal changes the `logo` text. */
  lemma UploadKeepsLogoText(d: StoreData, t: UploadType, v: string)
    ensures Merge(d, FieldPatch(TargetField(t), v)).logo == d.logo
  {
    FieldPatchChangesOnlyField(d, TargetField(t), v);
    assert TextOf(d, Logo) == d.logo;
  }

  /** The storage bucket: `videos` for the background video, `profiles` for either logo. */
  function Bucket(t: UploadType): (b: string)
    ensures b == "videos" <==> t == BackgroundVideoUpload
    ensures b != "videos" ==> b == "profiles"
  {
    if t == BackgroundVideoUpload then "videos" else "profiles"
  }

  /** The folder inside the bucket: `backgrounds` for the video, `uploads` for either logo. */
  function Folder(t: UploadType): (f: string)
    ensures f == "backgrounds" <==> t == BackgroundVideoUpload
    ensures f != "backgrounds" ==> f == "uploads"
  {
    if t == BackgroundVideoUpload then "backgrounds" else "uploads"
  }

  lemma LowerCaseKeepsDotFree(s: string)
    requires '.' !in s
    ensures '.' !in ToLowerCase(s)
  {
    var r := ToLowerCase(s);
    forall i | 0 <= i < |r| ensures r[i] != '.' {
      assert r[i] == LowerChar(s[i]);
      assert s[i] != '.';
    }
  }

  /** `(file.name.split('.').pop() || (isVideo ? 'mp4' : 'png')).toLowerCase()`: the
      lower-cased text after the last dot (the whole name when there is none), or the
      type's default when that text is empty. */
  function Extension(fileName: string, t: UploadType): (ext: string)
    ensures ext != "" && '.' !in ext
    ensures LastSegment(fileName, '.') != "" ==> ext == ToLowerCase(LastSegment(fileName, '.'))
    ensures '.' !in fileName && fileName != "" ==> ext == ToLowerCase(fileName)
    ensures LastSegment(fileName, '.') == "" ==> ext == (if t == BackgroundVideoUpload then "mp4" else "png")
  {
    var segment := LastSegment(fileName, '.');
    DefaultExtensionLower(t);
    var chosen := if segment != "" then segment else DefaultExtension(t);
    LowerCaseKeepsDotFree(chosen);
    ToLowerCase(chosen)
  }

  function DefaultExtension(t: UploadType): string {
    if t == BackgroundVideoUpload then "mp4" else "png"
  }

  lemma DefaultExtensionLower(t: UploadType)
    ensures DefaultExtension(t) != "" && '.' !in DefaultExtension(t)
    ensures ToLowerCase(DefaultExtension(t)) == DefaultExtension(t)
  {
    var e := DefaultExtension(t);
    assert ToLowerCase(e) == e by {
      forall i | 0 <= i < |e| ensures ToLowerCase(e)[i] == e[i] {
        assert !IsAsciiUpper(e[i]);
      }
    }
  }

  /** `${folder}/${Date.now()}_${random}.${ext}`, with the time and the random part as text. */
  function UploadPath(folder: string, now: string, random: string, ext: string): (path: string)
    ensures StartsWith(path, folder + "/")
    ensures EndsWith(path, "." + ext)
    ensures '.' !in ext ==> LastSegment(path, '.') == ext
  {
    var path := folder + "/" + now + "_" + random + "." + ext;
    assert path[..|folder + "/"|] == folder + "/";
    assert path[|path| - |"." + ext|..] == "." + ext;
    assert '.' !in ext ==> LastSegment(path, '.') == ext by {
      if '.' !in ext {
        assert path == (folder + "/" + now + "_" + random) + ['.'] + ext;
        LastSegmentAfterSeparator(folder + "/" + now + "_" + random, '.', ext);
      }
    }
    path
  }

  /** The extension of every generated path is the extension chosen for the file. */
  lemma UploadPathExtension(t: UploadType, fileName: string, now: string, random: string)
    ensures var ext := Extension(fileName, t);
      LastSegment(UploadPath(Folder(t), now, random, ext), '.') == ext
  {
  }

  datatype File = File(name: string, contentType: string)

  datatype UploadRequest = UploadRequest(bucket: string, path: string, contentType: string)

  /** `handleFileUpload(file, type)`. No file removes the target field's value. Otherwise
      the file goes to the type's bucket under a generated path; `uploaded` says whether the
      upload succeeded and `publicUrl` is the URL the storage gives for the path. A failed
      upload changes nothing in the store. */
  method HandleFileUpload(store: Store, file: Option<File>, t: UploadType, now: string, random: string,
                          uploaded: bool, publicUrl: string,
                          lookup: Outcome, write: Outcome, newId: string)
    returns (request: Option<UploadRequest>)
    modifies store, store.storage
    ensures file.None? ==> request.None? && store.UpdatedWith(FieldPatch(TargetField(t), ""), lookup, write, newId)
    ensures file.Some? ==>
      request == Some(UploadRequest(Bucket(t), UploadPath(Folder(t), now, random, Extension(file.value.name, t)),
                                    file.value.contentType))
    ensures file.Some? && !uploaded ==>
      store.data == old(store.data) && store.storage.items == old(store.storage.items)
      && store.rows == old(store.rows) && store.effects == old(store.effects) && store.loading == old(store.loading)
    ensures file.Some? && uploaded ==> store.UpdatedWith(FieldPatch(TargetField(t), publicUrl), lookup, write, newId)
  {
    if file.None? {
      request := None;
      store.UpdateData(FieldPatch(TargetField(t), ""), lookup, write, newId);
      return;
    }
    var ext := Extension(file.value.name, t);
    var path := UploadPath(Folder(t), now, random, ext);
    request := Some(UploadRequest(Bucket(t), path, file.value.contentType));
    if uploaded {
      store.UpdateData(FieldPatch(TargetField(t), publicUrl), lookup, write, newId);
    }
  }
}
