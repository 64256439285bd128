/** The create-post form (src/components/CreatePost.tsx): the text, the chosen image and its
    preview, a 5 MiB size guard on the image, a blank-text guard on submit, and the character
    counter of the text box capped at 280 UTF-16 code units. */
module CreatePost {
  import opened Common
  import opened Text

  /** The largest accepted image: `5 * 1024 * 1024` bytes. */
  const MaxImageBytes: nat := 5 * 1024 * 1024
  /** The text box's `maxLength`, in UTF-16 code units. */
  const MaxTextLength: nat := 280
  /** The counter turns red past this many UTF-16 code units. */
  const WarnLength: nat := 250

  /** A chosen file: its name and its size in bytes. */
  datatype ImageFile = ImageFile(name: string, size: nat)

  /** What `onSubmit` receives: the text and the image, if one was chosen. */
  datatype Submission = Submission(text: string, image: Option<ImageFile>)

  /** The toast the form shows. */
  datatype Notice = NoNotice | FileTooLarge | EmptyPost | PostCreated

  /** `handleImageChange`'s test: files up to and including 5 MiB are accepted. */
  predicate AcceptsImage(file: ImageFile): (accepted: bool)
    ensures accepted <==> file.size <= MaxImageBytes
  {
    !(file.size > MaxImageBytes)
  }

  /** The boundary of the size guard: exactly 5 MiB passes, one byte more is refused. */
  lemma AcceptsImageBoundary(name: string)
    ensures AcceptsImage(ImageFile(name, 5242880))
    ensures !AcceptsImage(ImageFile(name, 5242881))
  {
  }

  /** The Share button is disabled exactly when the text is blank (`!text.trim()`). */
  predicate ShareDisabled(text: string): (disabled: bool)
    ensures disabled <==> IsBlank(text)
  {
    Trim(text) == ""
  }

  /** The counter's warning colour: `text.length > 250`, a length in UTF-16 code units.
      More than 250 characters always warn; text of characters at or below U+FFFF warns
      exactly past 250 characters, and text with characters above it can warn sooner. */
  predicate CounterWarns(text: string): (warns: bool)
    ensures |text| > WarnLength ==> warns
    ensures warns ==> 2 * |text| > WarnLength
    ensures (forall i | 0 <= i < |text| :: text[i] as int <= 0xFFFF) ==> (warns <==> |text| > WarnLength)
  {
    Utf16Length(text) > WarnLength
  }

  /** Within the box's cap, the warning covers exactly the last 30 allowed lengths, which
      is between 126 and 280 characters. */
  lemma CounterWarningBand(text: string)
    requires Utf16Length(text) <= MaxTextLength
    ensures CounterWarns(text) <==> 251 <= Utf16Length(text) <= 280
    ensures CounterWarns(text) ==> 126 <= |text| <= 280
  {
  }

  /** The form's state: `text`, `image` and `imagePreview`. */
  class CreatePostForm {
    var text: string
    var image: Option<ImageFile>
    var imagePreview: Option<string>

    /** The text never exceeds the box's cap. */
    ghost predicate Valid()
      reads this
    {
      Utf16Length(text) <= MaxTextLength
    }

    /** An empty form. */
    constructor ()
      ensures Valid()
      ensures text == "" && image.None? && imagePreview.None?
    {
      text := "";
      image := None;
      imagePreview := None;
    }

    /** The text box's `onChange`; the box's `maxLength` keeps the value within 280 UTF-16 code units. */
    method SetText(value: string)
      requires Valid()
      requires Utf16Length(value) <= MaxTextLength
      modifies this
      ensures Valid()
      ensures text == value && image == old(image) && imagePreview == old(imagePreview)
    {
      text := value;
    }

    /** `handleImageChange`: no file changes nothing; a file over 5 MiB is refused with a notice
        and changes nothing; any other becomes the image, its preview following when read. */
    method HandleImageChange(file: Option<ImageFile>) returns (notice: Notice)
      requires Valid()
      modifies this
      ensures Valid()
      ensures text == old(text) && imagePreview == old(imagePreview)
      ensures file.None? ==> notice == NoNotice && image == old(image)
      ensures file.Some? && !AcceptsImage(file.value) ==> notice == FileTooLarge && image == old(image)
      ensures file.Some? && AcceptsImage(file.value) ==> notice == NoNotice && image == file
    {
      notice := NoNotice;
      if file.Some? {
        if file.value.size > MaxImageBytes {
          return FileTooLarge;
        }
        image := file;
      }
    }

    /** The file reader's `onload`: the data URL becomes the preview. */
    method PreviewLoaded(dataUrl: string)
      requires Valid()
      modifies this
      ensures Valid()
      ensures imagePreview == Some(dataUrl) && text == old(text) && image == old(image)
    {
      imagePreview := Some(dataUrl);
    }

    /** The × button on the preview: drops the image and its preview, keeps the text. */
    method RemoveImage()
      requires Valid()
      modifies this
      ensures Valid()
      ensures image.None? && imagePreview.None? && text == old(text)
    {
      image := None;
      imagePreview := None;
    }

    /** `handleSubmit`: blank text is refused with a notice and nothing changes; otherwise
        `onSubmit` receives the text and the image, and the form is cleared. */
    method HandleSubmit() returns (submitted: Option<Submission>, notice: Notice)
      requires Valid()
      modifies this
      ensures Valid()
      ensures submitted.None? <==> IsBlank(old(text))
      ensures submitted.None? ==>
        notice == EmptyPost && text == old(text) && image == old(image) && imagePreview == old(imagePreview)
      ensures submitted.Some? ==>
        submitted.value == Submission(old(text), old(image)) && notice == PostCreated &&
        text == "" && image.None? && imagePreview.None?
    {
      if ShareDisabled(text) {
        return None, EmptyPost;
      }
      submitted := Some(Submission(text, image));
      text := "";
      image := None;
      imagePreview := None;
      notice := PostCreated;
    }
  }
}
