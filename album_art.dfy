/** The upload state of src/components/album-art-creator.tsx: the image and
    the upload error that `handleFileChange` and the file reader's callbacks
    change, the generate click, the generate button's enabled rule, and which
    controls each user sees. */
module AlbumArt {
  import opened Js

  /** The upload limit: 4 MiB. */
  const MaxImageBytes := 4 * 1024 * 1024
  const TooLargeError := "Image size cannot exceed 4MB."
  const ReadFailedError := "Failed to read the image file."

  /** The first selected file; only its size is looked at. */
  datatype File = File(size: nat)

  /** The `result` property: the generated art or the generation error. */
  datatype ArtResult = ArtResult(dataUri: Option<string>, error: Option<string>)

  /** What the component shows. */
  datatype Control =
    | UpgradeButton
    | ImagePreview(src: string)
    | FileInput(disabled: bool)
    | ErrorAlert(message: string)
    | DownloadLink(href: string)
    | GenerateButton(enabled: bool)

  class AlbumArtCreator {
    var uploadedImage: Option<string>
    var uploadError: Option<string>
    /** File reads started and not yet answered by `onload` or `onerror`. */
    ghost var readsInFlight: nat

    /** The only errors the component itself sets. */
    ghost predicate Valid()
      reads this
    {
      uploadError == None || uploadError == Some(TooLargeError) || uploadError == Some(ReadFailedError)
    }

    constructor ()
      ensures Valid()
      ensures uploadedImage == None && uploadError == None && readsInFlight == 0
    {
      uploadedImage := None;
      uploadError := None;
      readsInFlight := 0;
    }

    /** `handleFileChange`: a missing file changes nothing; a file over the
        limit only sets the size error; any other file starts a read, and
        the answer comes later through `OnReadLoad` or `OnReadError`. */
    method HandleFileChange(file: Option<File>) returns (readStarted: bool)
      requires Valid()
      modifies this
      ensures Valid()
      ensures readStarted <==> file.Some? && file.value.size <= MaxImageBytes
      ensures uploadedImage == old(uploadedImage)
      ensures file.Some? && file.value.size > MaxImageBytes ==> uploadError == Some(TooLargeError)
      ensures !(file.Some? && file.value.size > MaxImageBytes) ==> uploadError == old(uploadError)
      ensures readsInFlight == old(readsInFlight) + (if readStarted then 1 else 0)
    {
      readStarted := false;
      if file.Some? {
        if file.value.size > MaxImageBytes {
          uploadError := Some(TooLargeError);
          return;
        }
        readsInFlight := readsInFlight + 1;
        readStarted := true;
      }
    }

    /** `reader.onload`: the data URL becomes the image and the error is
        cleared. */
    method OnReadLoad(result: string)
      requires Valid() && readsInFlight > 0
      modifies this
      ensures Valid()
      ensures uploadedImage == Some(result) && uploadError == None
      ensures readsInFlight == old(readsInFlight) - 1
    {
      uploadedImage := Some(result);
      uploadError := None;
      readsInFlight := readsInFlight - 1;
    }

    /** `reader.onerror`: the read error is set and the image kept. */
    method OnReadError()
      requires Valid() && readsInFlight > 0
      modifies this
      ensures Valid()
      ensures uploadedImage == old(uploadedImage) && uploadError == Some(ReadFailedError)
      ensures readsInFlight == old(readsInFlight) - 1
    {
      uploadError := Some(ReadFailedError);
      readsInFlight := readsInFlight - 1;
    }

    /** `handleGenerateClick`: the image handed to `onGenerate`, if any. */
    method HandleGenerateClick() returns (generated: Option<string>)
      ensures generated.Some? <==> Truthy(uploadedImage)
      ensures generated.Some? ==> generated == uploadedImage && generated.value != ""
    {
      generated := None;
      if uploadedImage.Some? && uploadedImage.value != "" {
        generated := uploadedImage;
      }
    }

    /** `disabled={!uploadedImage || isGenerating || !!result.dataUri}`,
        negated. */
    predicate GenerateEnabled(isGenerating: bool, result: ArtResult)
      reads this
    {
      Truthy(uploadedImage) && !isGenerating && !Truthy(result.dataUri)
    }

    /** A click on the generate button: a disabled button does nothing. */
    method ClickGenerate(isGenerating: bool, result: ArtResult) returns (generated: Option<string>)
      ensures generated.Some? <==> Truthy(uploadedImage) && !isGenerating && !Truthy(result.dataUri)
      ensures generated.Some? ==> generated == uploadedImage
    {
      generated := None;
      if GenerateEnabled(isGenerating, result) {
        generated := HandleGenerateClick();
      }
    }

    /** The controls shown, in page order. */
    function Controls(isPro: bool, isGenerating: bool, result: ArtResult): (r: seq<Control>)
      reads this
      ensures !isPro ==> r == [UpgradeButton]
      ensures isPro ==> UpgradeButton !in r
      ensures isPro ==> GenerateButton(GenerateEnabled(isGenerating, result)) in r
      ensures isPro && Truthy(uploadError) ==> ErrorAlert(uploadError.value) in r
      ensures isPro ==> (FileInput(isGenerating || Truthy(result.dataUri)) in r <==> !(Truthy(uploadedImage) && !Truthy(result.dataUri)))
      ensures forall b :: FileInput(b) in r ==> b == (isGenerating || Truthy(result.dataUri))
      ensures isPro ==> forall p :: ImagePreview(p) in r <==>
        Truthy(uploadedImage) && !Truthy(result.dataUri) && p == uploadedImage.value
      ensures isPro ==> forall m :: ErrorAlert(m) in r <==> Truthy(uploadError) && m == uploadError.value
      ensures isPro ==> forall u :: DownloadLink(u) in r <==> Truthy(result.dataUri) && u == result.dataUri.value
      ensures forall b :: GenerateButton(b) in r ==> b == GenerateEnabled(isGenerating, result)
      ensures Valid() ==> forall m :: ErrorAlert(m) in r ==> m == TooLargeError || m == ReadFailedError
    {
      if !isPro then [UpgradeButton]
      else
        var upload := if Truthy(uploadedImage) && !Truthy(result.dataUri) then [ImagePreview(uploadedImage.value)]
                      else [FileInput(isGenerating || Truthy(result.dataUri))];
        var alert := if Truthy(uploadError) then [ErrorAlert(uploadError.value)] else [];
        var download := if Truthy(result.dataUri) then [DownloadLink(result.dataUri.value)] else [];
        upload + alert + download + [GenerateButton(GenerateEnabled(isGenerating, result))]
    }
  }

  /** The size guard is strict: exactly 4 MiB is accepted, one byte more is
      refused. */
  method SizeLimitBoundary()
  {
    var c := new AlbumArtCreator();
    var started := c.HandleFileChange(Some(File(4194304)));
    assert started && c.uploadError == None;
    started := c.HandleFileChange(Some(File(4194305)));
    assert !started && c.uploadError == Some(TooLargeError);
    c.OnReadLoad("data:image/png;base64,AA==");
    assert c.uploadError == None;
    var art := c.ClickGenerate(false, ArtResult(None, None));
    assert art == Some("data:image/png;base64,AA==");
  }
}
