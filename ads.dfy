/** The ads page: which ads each tab shows (by owner, then by image, video or
    plain link, using the link's file extension), the preview each ad gets,
    and the checks the Add modal makes before sending an ad. */
module Ads {
  import opened Wrappers
  import opened Text
  import Records

  /** An ad as the ads list returns it: `adType` is the `type` field, "user"
      or "vendor"; `extensions` is "image", "video" or "url". */
  datatype Ad = Ad(id: int, image: string, adType: string, extensions: string)

  /** The text ends in one of the image extensions, written in lower case. */
  predicate EndsWithImageSuffix(l: string)
  {
    EndsWith(l, ".jpeg") || EndsWith(l, ".jpg") || EndsWith(l, ".gif")
    || EndsWith(l, ".png") || EndsWith(l, ".svg")
  }

  /** The text ends in one of the video extensions, written in lower case. */
  predicate EndsWithVideoSuffix(l: string)
  {
    EndsWith(l, ".mp4") || EndsWith(l, ".webm") || EndsWith(l, ".ogg")
  }

  /** `/\.(jpeg|jpg|gif|png|svg)$/i`: the link ends in an image extension,
      in any letter case. */
  predicate HasImageExtension(url: string)
  {
    EndsWithImageSuffix(Lower(url))
  }

  /** `/\.(mp4|webm|ogg)$/i`: the link ends in a video extension, in any
      letter case. */
  predicate HasVideoExtension(url: string)
  {
    EndsWithVideoSuffix(Lower(url))
  }

  /** A string that ends with a suffix ends with its last two characters. */
  lemma EndsWithLastTwo(s: string, suffix: string)
    requires |suffix| >= 2 && EndsWith(s, suffix)
    ensures s[|s| - 1] == suffix[|suffix| - 1] && s[|s| - 2] == suffix[|suffix| - 2]
  {
    assert s[|s| - |suffix|..][|suffix| - 1] == s[|s| - 1];
    assert s[|s| - |suffix|..][|suffix| - 2] == s[|s| - 2];
  }

  /** No text ends in both an image and a video extension: their last two
      characters differ. */
  lemma SuffixesDisjoint(l: string)
    ensures !(EndsWithImageSuffix(l) && EndsWithVideoSuffix(l))
  {
    if EndsWithImageSuffix(l) && EndsWithVideoSuffix(l) {
      assert |l| >= 4;
      var last, before := l[|l| - 1], l[|l| - 2];
      assert (last == 'g' && before != 'g') || last == 'f' by {
        if EndsWith(l, ".jpeg") { EndsWithLastTwo(l, ".jpeg"); }
        else if EndsWith(l, ".jpg") { EndsWithLastTwo(l, ".jpg"); }
        else if EndsWith(l, ".gif") { EndsWithLastTwo(l, ".gif"); }
        else if EndsWith(l, ".png") { EndsWithLastTwo(l, ".png"); }
        else { EndsWithLastTwo(l, ".svg"); }
      }
      assert false;
    }
  }

  /** No link has both an image and a video extension. */
  lemma ExtensionsDisjoint(url: string)
    ensures !(HasImageExtension(url) && HasVideoExtension(url))
  {
    SuffixesDisjoint(Lower(url));
  }

  /** The inner tab test of `filteredAds` for the selected inner tab; an
      inner tab other than the three shows everything. */
  predicate InInnerTab(ad: Ad, internalTab: string)
  {
    if internalTab == "image" then
      ad.extensions == "image" || (ad.extensions == "url" && HasImageExtension(ad.image))
    else if internalTab == "video" then
      ad.extensions == "video" || (ad.extensions == "url" && HasVideoExtension(ad.image))
    else if internalTab == "url" then
      ad.extensions == "url" && !HasImageExtension(ad.image) && !HasVideoExtension(ad.image)
    else true
  }

  /** The three inner tabs never share an ad, and every link ad is in exactly
      one of them. */
  lemma InnerTabsPartition(ad: Ad)
    ensures !(InInnerTab(ad, "image") && InInnerTab(ad, "video"))
    ensures !(InInnerTab(ad, "image") && InInnerTab(ad, "url"))
    ensures !(InInnerTab(ad, "video") && InInnerTab(ad, "url"))
    ensures ad.extensions == "url" ==>
              InInnerTab(ad, "image") || InInnerTab(ad, "video") || InInnerTab(ad, "url")
    ensures ad.extensions != "image" && ad.extensions != "video" && ad.extensions != "url" ==>
              !InInnerTab(ad, "image") && !InInnerTab(ad, "video") && !InInnerTab(ad, "url")
  {
    ExtensionsDisjoint(ad.image);
  }

  function ShownIn(activeTab: string, internalTab: string): Ad -> bool
  {
    (ad: Ad) => ad.adType == activeTab && InInnerTab(ad, internalTab)
  }

  /** `filteredAds`: the ads of the active owner tab that belong to the inner
      tab, or nothing while the list has not arrived. */
  function FilteredAds(adsData: Option<seq<Ad>>, activeTab: string, internalTab: string): seq<Ad>
  {
    match adsData
    case None => []
    case Some(ads) => Records.Keep(ads, ShownIn(activeTab, internalTab))
  }

  /** An ad is shown exactly when it belongs to the active owner tab and to
      the inner tab; the shown ads keep the list's order. */
  lemma FilteredAdsSpec(ads: seq<Ad>, activeTab: string, internalTab: string)
    ensures forall ad :: ad in FilteredAds(Some(ads), activeTab, internalTab) <==>
              ad in ads && ad.adType == activeTab && InInnerTab(ad, internalTab)
    ensures Records.IsSubsequence(FilteredAds(Some(ads), activeTab, internalTab), ads)
    ensures FilteredAds(None, activeTab, internalTab) == []
  {
    Records.KeepIsSubsequence(ads, ShownIn(activeTab, internalTab));
  }

  /** The text of a link preview: the link itself up to 30 characters, else
      its first 27 characters and "...". */
  function LinkText(link: string): (r: string)
    ensures |r| <= 30
    ensures |link| <= 30 ==> r == link
    ensures |link| > 30 ==> |r| == 30 && r[..27] == link[..27] && r[27..] == "..."
  {
    if |link| > 30 then link[..27] + "..." else link
  }

  datatype Preview = ImagePreview(src: string) | VideoPreview(src: string) | LinkPreview(href: string, text: string)

  /** `renderPreview`: an image, a video player, or a link. */
  function RenderPreview(ad: Ad): Preview
  {
    if ad.extensions == "image" || (ad.extensions == "url" && HasImageExtension(ad.image)) then
      ImagePreview(ad.image)
    else if ad.extensions == "video" || (ad.extensions == "url" && HasVideoExtension(ad.image)) then
      VideoPreview(ad.image)
    else
      LinkPreview(ad.image, LinkText(ad.image))
  }

  /** The preview an ad gets is the kind of the inner tab it is filed under. */
  lemma PreviewMatchesTab(ad: Ad)
    ensures RenderPreview(ad).ImagePreview? <==> InInnerTab(ad, "image")
    ensures RenderPreview(ad).VideoPreview? <==> InInnerTab(ad, "video")
    ensures ad.extensions == "url" ==> (RenderPreview(ad).LinkPreview? <==> InInnerTab(ad, "url"))
  {
    ExtensionsDisjoint(ad.image);
  }

  /** A file picked in the upload control. */
  datatype UploadFile = UploadFile(name: string)

  /** What is sent as `image`: the trimmed link or the picked file. */
  datatype AdImage = LinkImage(url: string) | FileImage(file: UploadFile)

  /** The fields `addAdItem` sends. */
  datatype AdSubmission = AdSubmission(image: AdImage, adType: string, extensions: string, position: string)

  /** Why `addAdItem` stops without sending. */
  datatype AddAdError = EmptyUrl | NoFile(contentType: string)

  /** `addAdItem`: the checks and the fields it would send. */
  function AddAdItem(contentType: string, urlInput: string, positionInput: string,
                     activeTab: string, file: Option<UploadFile>): Result<AdSubmission, AddAdError>
  {
    if contentType == "url" && Trim(urlInput) == [] then Err(EmptyUrl)
    else if contentType != "url" && file.None? then Err(NoFile(contentType))
    else
      var image := if contentType == "url" then LinkImage(Trim(urlInput)) else FileImage(file.value);
      Ok(AdSubmission(image, if activeTab == "user" then "user" else "vendor", contentType, positionInput))
  }

  /** `addAdItem` refuses a link that is all white space and a missing file,
      and nothing else; what it sends is owned by "user" exactly when the
      active tab is "user" and by "vendor" otherwise, carries the content
      type and position, and a link is sent trimmed and non-empty. */
  lemma AddAdItemSpec(contentType: string, urlInput: string, positionInput: string,
                      activeTab: string, file: Option<UploadFile>)
    ensures var r := AddAdItem(contentType, urlInput, positionInput, activeTab, file);
      && (r == Err(EmptyUrl) <==>
            contentType == "url" && forall i :: 0 <= i < |urlInput| ==> IsJsSpace(urlInput[i]))
      && (r.Err? && r.error.NoFile? <==> contentType != "url" && file.None?)
      && (r.Ok? ==>
            && (r.value.adType == "user" <==> activeTab == "user")
            && (r.value.adType == "vendor" <==> activeTab != "user")
            && r.value.extensions == contentType && r.value.position == positionInput
            && (contentType == "url" ==>
                  r.value.image == LinkImage(Trim(urlInput)) && Trim(urlInput) != []
                  && !IsJsSpace(Trim(urlInput)[0]) && !IsJsSpace(Trim(urlInput)[|Trim(urlInput)| - 1]))
            && (contentType != "url" ==> r.value.image == FileImage(file.value)))
  {
    TrimSpec(urlInput);
  }

  /** `newFileList.slice(-1)`: the last picked file only. */
  function LastOnly(files: seq<UploadFile>): (r: seq<UploadFile>)
    ensures |r| <= 1
    ensures r == [] <==> files == []
    ensures files != [] ==> r[0] == files[|files| - 1]
  {
    files[if files == [] then 0 else |files| - 1..]
  }

  /** The Add modal's OK button: a link goes to `addAdItem` without a file;
      otherwise an empty file list is refused, else the first file is passed
      on. */
  function SubmitModal(contentType: string, urlInput: string, positionInput: string,
                       activeTab: string, fileList: seq<UploadFile>): Result<AdSubmission, AddAdError>
  {
    if contentType == "url" then AddAdItem(contentType, urlInput, positionInput, activeTab, None)
    else if fileList == [] then Err(NoFile(contentType))
    else AddAdItem(contentType, urlInput, positionInput, activeTab, Some(fileList[0]))
  }

  /** The OK button sends exactly when a link is given that is not all white
      space, or a file is picked for an image or a video; a picked file sent
      is the first in the list. */
  lemma SubmitModalSpec(contentType: string, urlInput: string, positionInput: string,
                        activeTab: string, fileList: seq<UploadFile>)
    ensures var r := SubmitModal(contentType, urlInput, positionInput, activeTab, fileList);
      && (r.Ok? <==>
            if contentType == "url" then exists i :: 0 <= i < |urlInput| && !IsJsSpace(urlInput[i])
            else fileList != [])
      && (r.Ok? && contentType != "url" ==> r.value.image == FileImage(fileList[0]))
      && (r.Ok? && contentType == "url" ==> r.value.image == LinkImage(Trim(urlInput)))
      && (r.Ok? ==> (r.value.adType == "user" <==> activeTab == "user"))
  {
    AddAdItemSpec(contentType, urlInput, positionInput, activeTab, None);
    if fileList != [] {
      AddAdItemSpec(contentType, urlInput, positionInput, activeTab, Some(fileList[0]));
    }
  }

  /** The ads page's own state: the two tab selections and the Add modal.
      The ads list itself belongs to the server. */
  class AdsPage {
    var activeTab: string
    var internalTab: string
    var modalVisible: bool
    var contentType: string
    var urlInput: string
    var positionInput: string
    var fileList: seq<UploadFile>

    constructor ()
      ensures activeTab == "user" && internalTab == "image" && !modalVisible
      ensures contentType == "image" && urlInput == "" && positionInput == "" && fileList == []
    {
      activeTab := "user";
      internalTab := "image";
      modalVisible := false;
      contentType := "image";
      urlInput := "";
      positionInput := "";
      fileList := [];
    }

    /** The owner tabs' change handler. */
    method SetActiveTab(key: string)
      modifies this`activeTab
      ensures activeTab == key
    {
      activeTab := key;
    }

    /** The inner tabs' change handler. */
    method SetInternalTab(key: string)
      modifies this`internalTab
      ensures internalTab == key
    {
      internalTab := key;
    }

    /** `openModal`: an empty image form in a visible modal. */
    method OpenModal()
      modifies this`contentType, this`fileList, this`urlInput, this`positionInput, this`modalVisible
      ensures contentType == "image" && fileList == [] && urlInput == "" && positionInput == ""
      ensures modalVisible
    {
      contentType := "image";
      fileList := [];
      urlInput := "";
      positionInput := "";
      modalVisible := true;
    }

    /** The modal's cancel handler. */
    method CloseModal()
      modifies this`modalVisible
      ensures !modalVisible
    {
      modalVisible := false;
    }

    /** `onUploadChange`: keeps only the last picked file. */
    method OnUploadChange(newFileList: seq<UploadFile>)
      modifies this`fileList
      ensures fileList == LastOnly(newFileList) && |fileList| <= 1
    {
      fileList := LastOnly(newFileList);
    }

    /** The content type radio: switching clears the file and the link. */
    method OnContentTypeChange(value: string)
      modifies this`contentType, this`fileList, this`urlInput
      ensures contentType == value && fileList == [] && urlInput == ""
    {
      contentType := value;
      fileList := [];
      urlInput := "";
    }

    /** After the server accepted an ad: the modal closes and its file and
        link are cleared. */
    method OnAdded()
      modifies this`modalVisible, this`fileList, this`urlInput
      ensures !modalVisible && fileList == [] && urlInput == ""
    {
      modalVisible := false;
      fileList := [];
      urlInput := "";
    }

    /** What the OK button does for the current form. */
    function OnOk(): Result<AdSubmission, AddAdError>
      reads this
    {
      SubmitModal(contentType, urlInput, positionInput, activeTab, fileList)
    }

    /** The ads the grid shows for the current tabs. */
    function Shown(adsData: Option<seq<Ad>>): seq<Ad>
      reads this
    {
      FilteredAds(adsData, activeTab, internalTab)
    }
  }
}
