/** Optional values, results, and the exceptions the scraping script can raise. */
module Outcomes {

  datatype Option<T> = None | Some(value: T)

  /** The ways the script stops with an uncaught exception. */
  datatype Failure =
    | IndexOutOfRange   // IndexError: `date.split("on")[1]`, or `Users[i]` / `Dates[i]` in the row loop
    | FormatMismatch    // ValueError from strptime: the text does not match ' %d %B %Y', or text remains after it
    | DateOutOfRange    // ValueError from datetime: the day does not exist in that month and year, or year 0
    | TransportError    // an exception raised by the HTTP request
    | HeadingMissing    // AttributeError: the product-name heading is absent, so find(...) gave None
    | UnboundLocal      // UnboundLocalError: no page was processed, so `formatted_date_list` and `product_name` are unbound

  datatype Result<T> = Ok(value: T) | Err(error: Failure)
}
