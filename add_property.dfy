/** The listing form of frontend/src/pages/AddProperty.jsx: the chosen
    photos and their previews, removing a photo, toggling an amenity, and
    the guards on submitting and on adding more photos. */
module AddPropertyPage {
  import opened Query

  /** At most this many photos per listing. */
  const MaxPhotos: nat := 5

  /** A file the browser hands the page; only its name matters here. */
  datatype File = File(name: string)

  /** The form's fields, as first rendered: empty texts, one guest, no
      amenity. */
  datatype FormData = FormData(
    title: string,
    description: string,
    pricePerNight: string,
    location: string,
    maxGuests: int,
    amenities: seq<string>)

  const InitialForm: FormData := FormData("", "", "", "", 1, [])

  /** The chosen files and their preview urls, index for index. */
  datatype Photos = Photos(files: seq<File>, previews: seq<string>)

  const NoPhotos: Photos := Photos([], [])

  /** The state the page keeps: one preview per file, never more than five. */
  predicate Consistent(ph: Photos) {
    |ph.files| == |ph.previews| <= MaxPhotos
  }

  // ----------------------------------------------------------- adding files

  /** handleFileChange: more than five photos in all is refused and changes
      nothing; otherwise the files, and a preview url for each (the
      browser's `URL.createObjectURL`, a parameter here), are appended in
      order. */
  function AddFiles(ph: Photos, added: seq<File>, objectUrl: File -> string): (r: Photos)
    ensures |added| + |ph.files| > MaxPhotos ==> r == ph
    ensures |added| + |ph.files| <= MaxPhotos ==>
      r.files == ph.files + added && r.previews == ph.previews + Map(added, objectUrl)
  {
    if |added| + |ph.files| > MaxPhotos then ph
    else Photos(ph.files + added, ph.previews + Map(added, objectUrl))
  }

  /** Adding files keeps one preview per file and at most five files. */
  lemma AddFilesKeepsConsistent(ph: Photos, added: seq<File>, objectUrl: File -> string)
    requires Consistent(ph)
    ensures Consistent(AddFiles(ph, added, objectUrl))
    ensures |AddFiles(ph, added, objectUrl).files| <= MaxPhotos
  {
  }

  // --------------------------------------------------------- removing files

  /** The position `splice(index, 1)` removes from a list of length `n`: a
      negative index counts from the end (and stops at the front); a
      position at or past the end removes nothing. */
  function SpliceStart(n: nat, index: int): nat {
    if index >= 0 then index else if n + index < 0 then 0 else n + index
  }

  /** `Array.prototype.splice(index, 1)` on a copy of `s`. */
  function Spliced<T>(s: seq<T>, index: int): (r: seq<T>)
    ensures SpliceStart(|s|, index) >= |s| ==> r == s
    ensures SpliceStart(|s|, index) < |s| ==> r == s[..SpliceStart(|s|, index)] + s[SpliceStart(|s|, index) + 1..]
  {
    var start := SpliceStart(|s|, index);
    if start >= |s| then s else s[..start] + s[start + 1..]
  }

  /** Where the k-th remaining element stood before the removal. */
  function SourceIndex(n: nat, index: int, k: nat): nat {
    if SpliceStart(n, index) < n && k >= SpliceStart(n, index) then k + 1 else k
  }

  /** removeImage: the same position leaves both lists, so they stay the
      same length, at most one photo goes, and every remaining file keeps
      its own preview and its relative order. */
  function RemoveImage(ph: Photos, index: int): (r: Photos)
    ensures |ph.files| == |ph.previews| ==> |r.files| == |r.previews|
    ensures |ph.files| - 1 <= |r.files| <= |ph.files|
    ensures forall k :: 0 <= k < |r.files| ==>
      && SourceIndex(|ph.files|, index, k) < |ph.files|
      && r.files[k] == ph.files[SourceIndex(|ph.files|, index, k)]
    ensures |ph.files| == |ph.previews| ==> forall k :: 0 <= k < |r.previews| ==>
      r.previews[k] == ph.previews[SourceIndex(|ph.files|, index, k)]
  {
    Photos(Spliced(ph.files, index), Spliced(ph.previews, index))
  }

  /** Removing a photo keeps the form consistent and drops exactly one pair
      for a position in range; a position past the end changes nothing. */
  lemma RemoveImageKeepsPairs(ph: Photos, index: int)
    requires Consistent(ph)
    ensures Consistent(RemoveImage(ph, index))
    ensures 0 <= index < |ph.files| ==> |RemoveImage(ph, index).files| == |ph.files| - 1
    ensures index >= |ph.files| ==> RemoveImage(ph, index) == ph
  {
  }

  /** A negative position counts from the end: -1 removes the last photo. */
  lemma RemoveLastByNegativeIndex(ph: Photos)
    requires Consistent(ph) && |ph.files| > 0
    ensures RemoveImage(ph, -1) == Photos(ph.files[..|ph.files| - 1], ph.previews[..|ph.previews| - 1])
  {
  }

  // ------------------------------------------------------------- amenities

  /** handleAmenityChange: a present id is removed (every occurrence), an
      absent one is appended. */
  function ToggleAmenity(form: FormData, id: string): (r: FormData)
    ensures r.(amenities := form.amenities) == form
    ensures id in form.amenities ==> r.amenities == Filter(form.amenities, Other(id))
    ensures id !in form.amenities ==> r.amenities == form.amenities + [id]
  {
    form.(amenities :=
      if id in form.amenities then Filter(form.amenities, Other(id)) else form.amenities + [id])
  }

  function Other(id: string): string -> bool {
    a => a != id
  }

  /** The toggle flips the id's membership and leaves every other id as it
      was. */
  lemma ToggleFlipsOnlyThatAmenity(form: FormData, id: string)
    ensures id in ToggleAmenity(form, id).amenities <==> id !in form.amenities
    ensures forall a :: a != id ==> (a in ToggleAmenity(form, id).amenities <==> a in form.amenities)
  {
  }

  /** Ticking and unticking an amenity that was not chosen restores the form. */
  lemma ToggleTwiceRestores(form: FormData, id: string)
    requires id !in form.amenities
    ensures ToggleAmenity(ToggleAmenity(form, id), id) == form
  {
    var once := ToggleAmenity(form, id);
    assert once.amenities == form.amenities + [id];
    assert id in once.amenities;
    forall i | 0 <= i < |form.amenities| ensures Other(id)(form.amenities[i]) {
      assert form.amenities[i] in form.amenities;
    }
    FilterAll(form.amenities, Other(id));
    FilterAppend(form.amenities, id, Other(id));
  }

  // ---------------------------------------------------------------- guards

  /** handleSubmit refuses a listing without a photo. */
  predicate CanSubmit(ph: Photos) {
    |ph.files| > 0
  }

  /** The add-photo control shows only below five previews. */
  predicate ShowAddControl(ph: Photos) {
    |ph.previews| < MaxPhotos
  }

  /** The page as first rendered cannot be submitted, and offers the
      add-photo control. */
  lemma InitialPageGuards()
    ensures Consistent(NoPhotos) && !CanSubmit(NoPhotos) && ShowAddControl(NoPhotos)
  {
  }

  /** Once the control is hidden, every further non-empty selection would
      be refused: the page is full. */
  lemma HiddenControlMeansFull(ph: Photos, added: seq<File>, objectUrl: File -> string)
    requires Consistent(ph) && !ShowAddControl(ph)
    requires |added| > 0
    ensures |ph.files| == MaxPhotos
    ensures AddFiles(ph, added, objectUrl) == ph
  {
  }
}
