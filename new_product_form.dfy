/**
 * The seller's new-product form: the image drop zone, which takes a batch of
 * files only while at most five images result, the removal of one image, and
 * `validateForm`, which fills a fresh error record field by field. `Number`
 * is a parameter: the number JavaScript reads from a string.
 */
module NewProductForm {
  import opened Wrappers
  import opened Strings

  const MaxImages: nat := 5
  const TooManyImages: string := "Maximum 5 images allowed"

  const NameRequired: string := "Product name is required"
  const DescriptionRequired: string := "Product description is required"
  const PriceInvalid: string := "Please enter a valid price"
  const StockInvalid: string := "Please enter a valid stock quantity"
  const ImagesRequired: string := "At least one image is required"

  /** A file the drop zone accepted. */
  datatype ImageFile = ImageFile(name: string, size: nat)

  /** What `Number(s)` gives: not a number, or a number. */
  datatype JsNumber = NaN | Num(value: real)

  // ---------------------------------------------------------------- images

  /** The state `onDrop` reads and sets, and the toast it may show. */
  datatype Dropped = Dropped(images: seq<ImageFile>, imagesError: string, toast: Option<string>)

  /** `onDrop`: a batch that would take the images past five is refused whole; otherwise it is appended and the images error cleared. */
  function OnDrop(images: seq<ImageFile>, imagesError: string, accepted: seq<ImageFile>): (r: Dropped)
    ensures r.toast.Some? <==> |accepted| + |images| > MaxImages
    ensures r.toast.Some? ==> r.toast == Some(TooManyImages) && r.images == images && r.imagesError == imagesError
    ensures r.toast.None? ==> |r.images| == |images| + |accepted| && r.images[..|images|] == images && r.images[|images|..] == accepted && r.imagesError == []
    ensures |images| <= MaxImages ==> |r.images| <= MaxImages
  {
    if |accepted| + |images| > MaxImages then Dropped(images, imagesError, Some(TooManyImages))
    else Dropped(images + accepted, [], None)
  }

  /** The images as they stand after each batch in turn is dropped. */
  function DropAll(images: seq<ImageFile>, imagesError: string, batches: seq<seq<ImageFile>>): Dropped
    decreases |batches|
  {
    if batches == [] then Dropped(images, imagesError, None)
    else
      var d := OnDrop(images, imagesError, batches[0]);
      DropAll(d.images, d.imagesError, batches[1..])
  }

  /** However many batches are dropped, starting from at most five images there are never more than five. */
  lemma {:induction false} DropAllBounded(images: seq<ImageFile>, imagesError: string, batches: seq<seq<ImageFile>>)
    requires |images| <= MaxImages
    ensures |DropAll(images, imagesError, batches).images| <= MaxImages
    ensures images <= DropAll(images, imagesError, batches).images
    decreases |batches|
  {
    if batches != [] {
      var d := OnDrop(images, imagesError, batches[0]);
      DropAllBounded(d.images, d.imagesError, batches[1..]);
    }
  }

  /** `prev.filter((_, i) => i !== index)`, walking the list with the index shifted down by one per element. */
  function RemoveImage(images: seq<ImageFile>, index: int): (r: seq<ImageFile>)
    ensures 0 <= index < |images| ==> r == images[..index] + images[index + 1..]
    ensures !(0 <= index < |images|) ==> r == images
    decreases |images|
  {
    if images == [] then []
    else
      var rest := RemoveImage(images[1..], index - 1);
      assert 0 < index < |images| ==> images[1..][..index - 1] == images[1..index];
      assert 0 < index < |images| ==> images[1..][index..] == images[index + 1..];
      (if index == 0 then [] else [images[0]]) + rest
  }

  /** Removing an image leaves one less when the index is in range, and at most five when there were at most five. */
  lemma RemoveImageCount(images: seq<ImageFile>, index: int)
    ensures 0 <= index < |images| ==> |RemoveImage(images, index)| == |images| - 1
    ensures |RemoveImage(images, index)| <= |images|
    ensures forall f :: f in RemoveImage(images, index) ==> f in images
  {
  }

  // ---------------------------------------------------------------- validation

  /** The `errors` record of the form. */
  datatype FormErrors = FormErrors(name: string, description: string, price: string, stock: string, images: string)

  const NoErrors: FormErrors := FormErrors([], [], [], [], [])

  /** `!s || Number(s) <= 0`: an empty field, or one that reads as a number that is not positive. A string that reads as NaN passes. */
  predicate BadPrice(price: string, number: string -> JsNumber) {
    price == [] || (number(price).Num? && number(price).value <= 0.0)
  }

  /** `!s || Number(s) < 0`. */
  predicate BadStock(stock: string, number: string -> JsNumber) {
    stock == [] || (number(stock).Num? && number(stock).value < 0.0)
  }

  /** The error record `validateForm` computes from the fields. */
  function ErrorsFor(name: string, description: string, price: string, stock: string,
                     imageCount: nat, number: string -> JsNumber): (e: FormErrors)
    ensures e.name == [] <==> Trim(name) != []
    ensures e.description == [] <==> Trim(description) != []
    ensures e.price == [] <==> !BadPrice(price, number)
    ensures e.stock == [] <==> !BadStock(stock, number)
    ensures e.images == [] <==> imageCount > 0
  {
    FormErrors(if Trim(name) == [] then NameRequired else [],
               if Trim(description) == [] then DescriptionRequired else [],
               if BadPrice(price, number) then PriceInvalid else [],
               if BadStock(stock, number) then StockInvalid else [],
               if imageCount == 0 then ImagesRequired else [])
  }

  /** The form passes exactly when a name and a description that are not only blanks, a price and a stock that read as accepted, and an image are present. */
  predicate FormValid(name: string, description: string, price: string, stock: string,
                      imageCount: nat, number: string -> JsNumber) {
    && !AllSpace(name) && !AllSpace(description)
    && !BadPrice(price, number) && !BadStock(stock, number)
    && imageCount > 0
  }

  /** The error record is empty exactly when the form is valid. */
  lemma ErrorsEmptyIffValid(name: string, description: string, price: string, stock: string,
                            imageCount: nat, number: string -> JsNumber)
    ensures ErrorsFor(name, description, price, stock, imageCount, number) == NoErrors
            <==> FormValid(name, description, price, stock, imageCount, number)
  {
    TrimEmptyIffBlank(name);
    TrimEmptyIffBlank(description);
  }

  /** A price that does not read as a number passes the price check: only an empty price or a number up to 0 is refused. */
  lemma NaNPricePasses(price: string, number: string -> JsNumber)
    requires price != [] && number(price) == NaN
    ensures !BadPrice(price, number)
  {
  }

  /** The fields of the form the validation reads. */
  class Form {
    var name: string
    var description: string
    var price: string
    var stockQuantity: string
    var images: seq<ImageFile>
    var errors: FormErrors

    constructor ()
      ensures name == [] && description == [] && price == [] && stockQuantity == [] && images == []
      ensures errors == NoErrors
    {
      name, description, price, stockQuantity, images := [], [], [], [], [];
      errors := NoErrors;
    }

    /**
     * `validateForm`: `errors` becomes the error record of the current fields,
     * nothing else changes, and the result is true exactly when every check
     * passes.
     */
    method ValidateForm(number: string -> JsNumber) returns (isValid: bool)
      modifies this
      ensures name == old(name) && description == old(description) && price == old(price)
      ensures stockQuantity == old(stockQuantity) && images == old(images)
      ensures errors == ErrorsFor(name, description, price, stockQuantity, |images|, number)
      ensures isValid <==> errors == NoErrors
      ensures isValid <==> FormValid(name, description, price, stockQuantity, |images|, number)
    {
      ghost var target := ErrorsFor(name, description, price, stockQuantity, |images|, number);
      var newErrors := NoErrors;
      isValid := true;
      if Trim(name) == [] {
        newErrors := newErrors.(name := NameRequired);
        isValid := false;
      }
      assert newErrors == NoErrors.(name := target.name) && isValid == (target.name == []);
      if Trim(description) == [] {
        newErrors := newErrors.(description := DescriptionRequired);
        isValid := false;
      }
      assert newErrors == NoErrors.(name := target.name, description := target.description);
      assert isValid == (target.name == [] && target.description == []);
      if price == [] || (number(price).Num? && number(price).value <= 0.0) {
        newErrors := newErrors.(price := PriceInvalid);
        isValid := false;
      }
      assert newErrors == target.(stock := [], images := []);
      assert isValid == (target.name == [] && target.description == [] && target.price == []);
      if stockQuantity == [] || (number(stockQuantity).Num? && number(stockQuantity).value < 0.0) {
        newErrors := newErrors.(stock := StockInvalid);
        isValid := false;
      }
      assert newErrors == target.(images := []);
      assert isValid == (target.name == [] && target.description == [] && target.price == [] && target.stock == []);
      if |images| == 0 {
        newErrors := newErrors.(images := ImagesRequired);
        isValid := false;
      }
      errors := newErrors;
      ErrorsEmptyIffValid(name, description, price, stockQuantity, |images|, number);
    }
  }
}
