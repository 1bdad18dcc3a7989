/**
 * The editor's module-level state (main.js, `currentFlag` … `flagIndex`)
 * and the event handlers that change it.  Every image load looks its asset
 * up in `assets`, the images that load successfully; an asset that is
 * absent fails and gives `None`.  Each handler runs to completion before
 * the next one starts.
 */
module Editor {
  import opened Assets
  import opened Search
  import opened Geometry
  import opened Compositor

  /** The lists `flags.json` may hold; a list it lacks is `None`. */
  datatype Manifest = Manifest(left: Option<seq<string>>, right: Option<seq<string>>, thumb: Option<seq<string>>)

  /** A list of the manifest, read as empty when the manifest lacks it. */
  function OrEmpty(list: Option<seq<string>>): seq<string>
  {
    if list.Some? then list.value else []
  }

  /** The names a thumbnail grid shows for the text in its search box:
      the list filtered by the trimmed, lower-cased query. */
  function Shown(value: string, list: seq<string>): (r: seq<string>)
    ensures r == Filter(value, list)
  {
    FilterCallerNormalisation(value, list);
    Filter(Lower(Trim(value)), list)
  }

  /** An empty search box shows the whole list. */
  lemma EmptySearchShowsAll(list: seq<string>)
    ensures Shown("", list) == list
  {
    assert Lower(Trim("")) == "";
    FilterEmptyQueryKeepsAll("", list);
  }

  class Editor {
    var currentFlag: Option<Raster>
    var currentEyes: Option<Raster>
    var uploadedImage: Option<Raster>

    var eyeStyle: EyeStyle
    var eyeIndex: nat

    var templateIndex: nat
    var currentTemplate: Option<Raster>
    var currentMask: Option<Raster>

    var adjustX: int
    var adjustY: int
    var adjustSize: int

    /** The single flip state used for both the eyes and the flags. */
    var flipSide: Side

    /** `flags.left`, `flags.right`, `flags.thumb` */
    var leftFlags: seq<string>
    var rightFlags: seq<string>
    var thumbFlags: seq<string>

    var flagIndex: nat

    /** The text of the flag search box, and the side whose list the flag
        thumbnails on screen were drawn from.  The lists change only in
        `loadFlags` and the search text only on input, and both redraw the
        grid, so the grid shows `FlagGrid()`. */
    var flagSearch: string
    var gridSide: Side

    /** The text of the popup search box and the names of the popup
        results on screen. */
    var popupSearch: string
    var popupResults: seq<string>

    /** The selected template and eye thumbnail exist: every way of setting
        the two indices keeps them inside their lists. */
    ghost predicate Valid()
      reads this`templateIndex, this`eyeIndex, this`eyeStyle
    {
      templateIndex < |Templates| && eyeIndex < EyeCount(eyeStyle)
    }

    /** What `drawCanvas` reads. */
    function Layers(): LayerState
      reads this`currentFlag, this`uploadedImage, this`currentMask, this`currentTemplate, this`currentEyes
      reads this`eyeStyle, this`adjustX, this`adjustY, this`adjustSize
    {
      LayerState(currentFlag, uploadedImage, currentMask, currentTemplate, currentEyes,
                 eyeStyle, adjustX, adjustY, adjustSize)
    }

    /** The flag list of the current flip side. */
    function SideFlags(): seq<string>
      reads this`flipSide, this`leftFlags, this`rightFlags
    {
      if flipSide == Left then leftFlags else rightFlags
    }

    /** The overlay and the mask `loadTemplate` would show now. */
    function LoadedTemplate(assets: Store): Option<Raster>
      requires Valid()
      reads this`templateIndex, this`eyeIndex, this`eyeStyle
    {
      Load(assets, TemplateFile(Templates[templateIndex].base))
    }

    function LoadedMask(assets: Store): Option<Raster>
      requires Valid()
      reads this`templateIndex, this`eyeIndex, this`eyeStyle
    {
      Load(assets, TemplateFile(Templates[templateIndex].mask))
    }

    /** The flag thumbnails on screen, in grid order: the names of the
        drawn side's list that match the search box. */
    function FlagGrid(): seq<string>
      reads this`flagSearch, this`gridSide, this`leftFlags, this`rightFlags
    {
      Shown(flagSearch, if gridSide == Left then leftFlags else rightFlags)
    }

    /** The eyes `loadEyes` would show now. */
    function LoadedEyes(assets: Store): Option<Raster>
      requires Valid()
      reads this`templateIndex, this`eyeIndex, this`eyeStyle, this`flipSide
    {
      Load(assets, EyeAsset(eyeStyle, flipSide, eyeIndex))
    }

    /** The flag `loadFlag` would show now: none for an empty list, and
        none for an index past its end, where the file name is `undefined`
        and the load fails. */
    function LoadedFlag(assets: Store): Option<Raster>
      reads this`flagIndex, this`flipSide, this`leftFlags, this`rightFlags
    {
      if flagIndex < |SideFlags()| then Load(assets, FlagFile(flipSide, SideFlags()[flagIndex])) else None
    }

    /** The state when the script starts. */
    constructor()
      ensures currentFlag == None && currentEyes == None && uploadedImage == None
      ensures eyeStyle == S1 && eyeIndex == 0
      ensures templateIndex == 0 && currentTemplate == None && currentMask == None
      ensures adjustX == 0 && adjustY == 0 && adjustSize == 200
      ensures flipSide == Left
      ensures leftFlags == [] && rightFlags == [] && thumbFlags == [] && flagIndex == 0
      ensures flagSearch == "" && gridSide == Left && popupSearch == "" && popupResults == []
      ensures Valid()
    {
      currentFlag, currentEyes, uploadedImage := None, None, None;
      eyeStyle, eyeIndex := S1, 0;
      templateIndex, currentTemplate, currentMask := 0, None, None;
      adjustX, adjustY, adjustSize := 0, 0, 200;
      flipSide := Left;
      leftFlags, rightFlags, thumbFlags := [], [], [];
      flagIndex := 0;
      flagSearch, gridSide := "", Left;
      popupSearch, popupResults := "", [];
    }

    /** `loadTemplate`: the overlay and its cutout mask of the selected
        template, each loaded on its own, so that one can fail while the
        other succeeds. */
    method LoadTemplate(assets: Store)
      requires Valid()
      modifies this`currentTemplate, this`currentMask
      ensures currentTemplate == LoadedTemplate(assets) && currentMask == LoadedMask(assets)
      ensures MaskOps(Layers()) != [] <==> currentMask.Some?
    {
      var t := Templates[templateIndex];
      currentTemplate := Load(assets, TemplateFile(t.base));
      currentMask := Load(assets, TemplateFile(t.mask));
    }

    /** A click on the `i`-th template thumbnail. */
    method SelectTemplate(i: nat, assets: Store)
      requires Valid() && i < |Templates|
      modifies this`templateIndex, this`currentTemplate, this`currentMask
      ensures templateIndex == i && Valid()
      ensures currentTemplate == Load(assets, TemplateFile(Templates[i].base))
      ensures currentMask == Load(assets, TemplateFile(Templates[i].mask))
    {
      templateIndex := i;
      LoadTemplate(assets);
    }

    /** `loadEyes`: the selected eyes of the current style and side. */
    method LoadEyes(assets: Store)
      requires Valid()
      modifies this`currentEyes
      ensures currentEyes == LoadedEyes(assets)
    {
      currentEyes := Load(assets, EyeAsset(eyeStyle, flipSide, eyeIndex));
    }

    /** A click on the `i`-th eye thumbnail. */
    method SelectEye(i: nat, assets: Store)
      requires Valid() && i < EyeCount(eyeStyle)
      modifies this`eyeIndex, this`currentEyes
      ensures eyeIndex == i && Valid()
      ensures currentEyes == Load(assets, EyeAsset(eyeStyle, flipSide, i))
    {
      eyeIndex := i;
      LoadEyes(assets);
    }

    /** `loadFlag`: the flag at `flagIndex` in the list of the current side.
        An empty list clears the flag without loading anything; an index
        past the end names no file and the load fails. */
    method LoadFlag(assets: Store)
      modifies this`currentFlag
      ensures currentFlag == LoadedFlag(assets)
      ensures SideFlags() == [] ==> currentFlag == None
      ensures currentFlag.Some? ==>
                flagIndex < |SideFlags()| && currentFlag == Load(assets, FlagFile(flipSide, SideFlags()[flagIndex]))
    {
      var list := SideFlags();
      if |list| == 0 {
        currentFlag := None;
        return;
      }
      if flagIndex < |list| {
        currentFlag := Load(assets, FlagFile(flipSide, list[flagIndex]));
      } else {
        currentFlag := None;
      }
    }

    /** `loadFlags`: take the three lists from the manifest (`None` when
        fetching or parsing it failed, which keeps the lists as they were),
        redraw the flag grid, then load the selected flag. */
    method LoadFlags(manifest: Option<Manifest>, assets: Store)
      modifies this`leftFlags, this`rightFlags, this`thumbFlags, this`gridSide, this`currentFlag
      ensures manifest.Some? ==>
                && leftFlags == OrEmpty(manifest.value.left)
                && rightFlags == OrEmpty(manifest.value.right)
                && thumbFlags == OrEmpty(manifest.value.thumb)
      ensures manifest.None? ==>
                leftFlags == old(leftFlags) && rightFlags == old(rightFlags) && thumbFlags == old(thumbFlags)
      ensures gridSide == flipSide
      ensures currentFlag == LoadedFlag(assets)
    {
      if manifest.Some? {
        leftFlags := OrEmpty(manifest.value.left);
        rightFlags := OrEmpty(manifest.value.right);
        thumbFlags := OrEmpty(manifest.value.thumb);
      }
      RenderFlagThumbnails();
      LoadFlag(assets);
    }

    /** The flip button: toggle the side, reload the eyes, and reload the
        flag only while no photo is uploaded.  With a photo the background
        the compositor draws stays exactly as it was. */
    method Flip(assets: Store)
      requires Valid()
      modifies this`flipSide, this`currentEyes, this`currentFlag, this`gridSide
      ensures flipSide == Opposite(old(flipSide)) && Valid()
      ensures currentEyes == LoadedEyes(assets)
      ensures uploadedImage.None? ==> currentFlag == LoadedFlag(assets) && gridSide == flipSide
      ensures uploadedImage.Some? ==> currentFlag == old(currentFlag) && gridSide == old(gridSide)
      ensures uploadedImage.Some? ==> BackgroundOps(Layers()) == old(BackgroundOps(Layers()))
    {
      var before := Layers();
      flipSide := Opposite(flipSide);
      LoadEyes(assets);
      if uploadedImage.None? {
        LoadFlag(assets);
        RenderFlagThumbnails();
      } else {
        assert Layers() == before.(eyes := currentEyes);
        BackgroundIgnoresEyes(before, currentEyes);
      }
    }

    /** The upload handler, once the photo is decoded: show the photo and
        drop the flag, so that the background becomes the photo's cover
        crop over the whole canvas. */
    method Upload(img: Raster)
      modifies this`uploadedImage, this`currentFlag
      ensures uploadedImage == Some(img) && currentFlag == None
      ensures BackgroundOps(Layers()) == [DrawCover(SourceLayer, img)]
    {
      uploadedImage := Some(img);
      currentFlag := None;
    }

    /** The synchronous part of an eye-style change, before the new eyes
        arrive: the first thumbnail of the new style is selected and no
        eyes are drawn meanwhile. */
    method BeginEyeStyleChange(style: EyeStyle)
      requires Valid()
      modifies this`eyeStyle, this`eyeIndex, this`currentEyes
      ensures eyeStyle == style && eyeIndex == 0 && currentEyes == None && Valid()
      ensures EyeOps(Layers()) == []
    {
      eyeStyle := style;
      eyeIndex := 0;
      currentEyes := None;
    }

    /** The eye-style selector: reset the selection, clear the eyes, then
        load the first eyes of the new style. */
    method ChangeEyeStyle(style: EyeStyle, assets: Store)
      requires Valid()
      modifies this`eyeStyle, this`eyeIndex, this`currentEyes
      ensures eyeStyle == style && eyeIndex == 0 && Valid()
      ensures currentEyes == Load(assets, EyeAsset(style, flipSide, 0))
    {
      BeginEyeStyleChange(style);
      LoadEyes(assets);
    }

    /** The horizontal eye slider.  With the first style the eyes cover
        the whole frame, so the slider changes nothing that is drawn. */
    method SetAdjustX(x: int)
      modifies this`adjustX
      ensures adjustX == x
      ensures eyeStyle == S1 ==> DrawCanvas(Layers()) == old(DrawCanvas(Layers()))
    {
      var before := Layers();
      adjustX := x;
      if eyeStyle == S1 {
        FullFrameIgnoresAdjust(before, x, adjustY, adjustSize);
        assert Layers() == before.(adjustX := x, adjustY := adjustY, adjustSize := adjustSize);
      }
    }

    /** The vertical eye slider. */
    method SetAdjustY(y: int)
      modifies this`adjustY
      ensures adjustY == y
      ensures eyeStyle == S1 ==> DrawCanvas(Layers()) == old(DrawCanvas(Layers()))
    {
      var before := Layers();
      adjustY := y;
      if eyeStyle == S1 {
        FullFrameIgnoresAdjust(before, adjustX, y, adjustSize);
        assert Layers() == before.(adjustX := adjustX, adjustY := y, adjustSize := adjustSize);
      }
    }

    /** The eye size slider. */
    method SetAdjustSize(size: int)
      modifies this`adjustSize
      ensures adjustSize == size
      ensures eyeStyle == S1 ==> DrawCanvas(Layers()) == old(DrawCanvas(Layers()))
    {
      var before := Layers();
      adjustSize := size;
      if eyeStyle == S1 {
        FullFrameIgnoresAdjust(before, adjustX, adjustY, size);
        assert Layers() == before.(adjustX := adjustX, adjustY := adjustY, adjustSize := size);
      }
    }

    /** `renderFlagThumbnails`: the grid shows the names of the current
        side's list that match the search box. */
    method RenderFlagThumbnails()
      modifies this`gridSide
      ensures gridSide == flipSide
    {
      gridSide := flipSide;
    }

    /** Typing in the flag search box. */
    method SearchFlags(value: string)
      modifies this`flagSearch, this`gridSide
      ensures flagSearch == value && gridSide == flipSide
    {
      flagSearch := value;
      RenderFlagThumbnails();
    }

    /** A click on the `i`-th thumbnail of the flag grid, as written: the
        position in the grid is stored as the position in the whole side
        list, so the flag loaded is the `i`-th of the side list, whatever
        the thumbnail shows. */
    method ClickFlagThumbnail(i: nat, assets: Store)
      requires i < |FlagGrid()|
      modifies this`flagIndex, this`currentFlag
      ensures flagIndex == i && currentFlag == LoadedFlag(assets)
    {
      flagIndex := i;
      LoadFlag(assets);
    }

    /** A click on the `i`-th thumbnail of the flag grid that selects the
        flag the thumbnail shows.  While the grid is up to date the name is
        always on the side list, so that flag is the one loaded. */
    method ClickFlagThumbnailIntended(i: nat, assets: Store)
      requires i < |FlagGrid()|
      modifies this`flagIndex, this`currentFlag
      ensures Picked(FlagGrid()[i], assets)
      ensures gridSide == flipSide ==>
                && flagIndex < |SideFlags()| && SideFlags()[flagIndex] == FlagGrid()[i]
                && currentFlag == Load(assets, FlagFile(flipSide, FlagGrid()[i]))
    {
      var name := FlagGrid()[i];
      if gridSide == flipSide {
        FilterPosition(Lower(Trim(flagSearch)), SideFlags(), i);
      }
      SelectByName(name, assets);
    }

    /** What selecting a flag by its name leaves behind: a name the current
        side lacks changes nothing, otherwise its first occurrence is
        selected and loaded. */
    twostate predicate Picked(name: string, assets: Store)
      reads this`flagIndex, this`currentFlag, this`flipSide, this`leftFlags, this`rightFlags
    {
      && (name !in SideFlags() ==> flagIndex == old(flagIndex) && currentFlag == old(currentFlag))
      && (name in SideFlags() ==>
            && flagIndex < |SideFlags()| && SideFlags()[flagIndex] == name
            && (forall j :: 0 <= j < flagIndex ==> SideFlags()[j] != name)
            && currentFlag == Load(assets, FlagFile(flipSide, name)))
    }

    /** Look a flag name up in the list of the current side (`indexOf`)
        and load it when it is there. */
    method SelectByName(name: string, assets: Store)
      modifies this`flagIndex, this`currentFlag
      ensures Picked(name, assets)
    {
      var index := IndexOf(SideFlags(), name, 0);
      if index == -1 {
        return;
      }
      flagIndex := index;
      LoadFlag(assets);
    }

    /** `renderPopupFlags`: the popup lists the names of the thumbnail list
        that match its search box. */
    method RenderPopupFlags()
      modifies this`popupResults
      ensures popupResults == Shown(popupSearch, thumbFlags)
    {
      popupResults := Shown(popupSearch, thumbFlags);
    }

    /** The search button: open the popup with an empty search box. */
    method OpenPopup()
      modifies this`popupSearch, this`popupResults
      ensures popupSearch == "" && popupResults == Shown("", thumbFlags)
    {
      popupSearch := "";
      RenderPopupFlags();
    }

    /** Typing in the popup search box. */
    method SearchPopup(value: string)
      modifies this`popupSearch, this`popupResults
      ensures popupSearch == value && popupResults == Shown(value, thumbFlags)
    {
      popupSearch := value;
      RenderPopupFlags();
    }

    /** A click on the `i`-th popup result: the name is looked up in the
        list of the current side. */
    method PickPopupFlag(i: nat, assets: Store)
      requires i < |popupResults|
      modifies this`flagIndex, this`currentFlag
      ensures Picked(popupResults[i], assets)
    {
      SelectByName(popupResults[i], assets);
    }
  }

  /** Flipping twice restores the picture, as long as the eyes and the flag
      shown are the ones the current selection loads. */
  method FlipTwice(e: Editor, assets: Store)
    requires e.Valid()
    requires e.currentEyes == e.LoadedEyes(assets)
    requires e.uploadedImage.None? ==> e.currentFlag == e.LoadedFlag(assets)
    modifies e
    ensures e.flipSide == old(e.flipSide)
    ensures e.Layers() == old(e.Layers())
  {
    e.Flip(assets);
    e.Flip(assets);
    assert Opposite(Opposite(old(e.flipSide))) == old(e.flipSide);
  }

  /** A flag picked from the search popup after a photo upload is drawn
      over the photo, which stays set: "flag or photo, never both" holds
      right after an upload and is not kept by the editor. */
  method UploadThenPick(e: Editor, photo: Raster, assets: Store)
    requires e.thumbFlags != [] && e.thumbFlags[0] in e.SideFlags()
    requires Load(assets, FlagFile(e.flipSide, e.thumbFlags[0])).Some?
    modifies e`uploadedImage, e`currentFlag, e`popupSearch, e`popupResults, e`flagIndex
    ensures e.uploadedImage == Some(photo)
    ensures e.currentFlag == Load(assets, FlagFile(e.flipSide, e.thumbFlags[0]))
    ensures BackgroundOps(e.Layers()) == [DrawLetterbox(SourceLayer, e.currentFlag.value, 0, 0, SizePx)]
  {
    e.Upload(photo);
    e.OpenPopup();
    EmptySearchShowsAll(e.thumbFlags);
    e.PickPopupFlag(0, assets);
  }

  /** With "bz" in the search box over the list Aruba, Brazil the grid
      shows only Brazil: its first thumbnail is not the first flag of the
      list, so `ClickFlagThumbnail(0)` loads Aruba while Brazil is shown. */
  lemma SearchMovesThumbnails()
    ensures Shown("bz", ["Aruba.png", "Brazil.png"]) == ["Brazil.png"]
  {
    assert Lower(Trim("bz")) == "bz";
    FlagSearchExample("Aruba.png", "Brazil.png");
  }
}
