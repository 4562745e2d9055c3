/** validate_image (backend/foodgram/validators.py). */
module ImageValidators {
  import opened Wrappers

  /**
   * The value is None (Python's None) or Some(text). The empty string and
   * None are refused; anything else passes through unchanged.
   */
  function ValidateImage(value: Option<string>): (r: Result<Option<string>, string>)
    ensures r.Err? <==> value == None || value == Some("")
    ensures r.Ok? ==> r.value == value
  {
    if value == None || value == Some("") then Err("empty image") else Ok(value)
  }
}
