/** The outcomes the views report, and the HTTP status each error is answered with. */
module Http {

  datatype Error =
    | DeviceIdRequired   // LikeToggle: `{"error": "device_id required"}`, 400
    | NotFound           // no row with the id in the URL (`get_object_or_404`), 404
    | NotInFavourites    // FavouriteDelete: `{"error": "Not in favourites"}`, 404
    | AlreadyExists      // a `unique=True` value already taken, rejected by validation, 400
    | InvalidCategory    // a prompt payload naming no existing category, 400
    | OutOfRange         // a counter outside the column's range, rejected by validation, 400
    | IntegrityError     // a NOT NULL, primary key or foreign key constraint fails on insert, 500
    | Overflow           // a counter saved past the 64-bit column range, 500

  function Status(e: Error): (code: nat)
    ensures code in {400, 404, 500}
    ensures code == 404 <==> e.NotFound? || e.NotInFavourites?
  {
    match e
    case DeviceIdRequired => 400
    case NotFound => 404
    case NotInFavourites => 404
    case AlreadyExists => 400
    case InvalidCategory => 400
    case OutOfRange => 400
    case IntegrityError => 500
    case Overflow => 500
  }

  datatype Result<T> = Ok(value: T) | Err(error: Error)
}
