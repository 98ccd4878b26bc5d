/** Display helpers of the client: shortening text, and the badge class for an order status. */
module Helpers {
  import opened OrderModel

  const DefaultMaxLength := 100
  const Ellipsis := "..."

  /**
   * `truncateText`: text up to `maxLength` characters is returned as it is; longer text is cut to its first
   * `maxLength` characters (none, for a negative limit, as `substring` clamps) and `...` is appended.
   */
  function TruncateText(text: string, maxLength: int := DefaultMaxLength): (r: string)
    ensures |text| <= maxLength ==> r == text
    ensures |text| > maxLength && maxLength >= 0 ==>
      |r| == maxLength + 3 && r[..maxLength] == text[..maxLength] && r[maxLength..] == Ellipsis
    ensures maxLength < 0 ==> r == Ellipsis
  {
    if |text| <= maxLength then text
    else if maxLength < 0 then Ellipsis
    else text[..maxLength] + Ellipsis
  }

  /** Truncating an already truncated text with the same limit changes nothing. */
  lemma TruncateIdempotent(text: string, maxLength: int)
    requires maxLength >= 0
    ensures TruncateText(TruncateText(text, maxLength), maxLength) == TruncateText(text, maxLength)
  {
    var once := TruncateText(text, maxLength);
    if |text| > maxLength {
      assert once[..maxLength] + once[maxLength..] == once;
    }
  }

  /** The truncated text is never longer than the original by more than the ellipsis. */
  lemma TruncateBound(text: string, maxLength: int)
    requires maxLength >= 0
    ensures |TruncateText(text, maxLength)| <= |text| + 3
    ensures |TruncateText(text, maxLength)| <= maxLength + 3
  {
  }

  /** The stored spelling of each order status. */
  function StatusName(s: Status): (r: string)
    ensures r in {"pending", "processing", "shipped", "delivered", "cancelled"}
  {
    match s
    case Pending => "pending"
    case Processing => "processing"
    case Shipped => "shipped"
    case Delivered => "delivered"
    case Cancelled => "cancelled"
  }

  const Grey := "bg-gray-100 text-gray-800"

  /**
   * The names every JavaScript object inherits from `Object.prototype`. `colors[status]` finds these on the
   * prototype, so for them the lookup yields a function or an object rather than falling back to grey.
   */
  predicate InheritedName(s: string) {
    s in {"constructor", "__proto__", "toString", "toLocaleString", "valueOf", "hasOwnProperty", "isPrototypeOf",
          "propertyIsEnumerable", "__defineGetter__", "__defineSetter__", "__lookupGetter__", "__lookupSetter__"}
  }

  /**
   * `getStatusColor`: the badge class of each known status name, grey for any other string that is not an
   * inherited property name. The model answers grey for those too; JavaScript does not.
   */
  function StatusColor(status: string): (r: string)
    ensures status !in {"pending", "processing", "shipped", "delivered", "cancelled"} && !InheritedName(status) ==> r == Grey
  {
    match status
    case "pending" => "bg-yellow-100 text-yellow-800"
    case "processing" => "bg-blue-100 text-blue-800"
    case "shipped" => "bg-purple-100 text-purple-800"
    case "delivered" => "bg-green-100 text-green-800"
    case "cancelled" => "bg-red-100 text-red-800"
    case _ => Grey
  }

  /** Every status has its own colour, and none of them is the grey default. */
  lemma StatusColorsDistinct(s: Status, t: Status)
    ensures StatusColor(StatusName(s)) != Grey
    ensures s != t ==> StatusColor(StatusName(s)) != StatusColor(StatusName(t))
  {
  }
}
