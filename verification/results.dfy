/** Optional values, handler outcomes and the error kinds the API answers with. */
module Results {

  /** A value that may be absent; `None` stands for JavaScript's `undefined`. */
  datatype Option<+T> = None | Some(value: T)

  /** The outcome of a request handler: a value, or the error response it sends. */
  datatype Result<+T> = Ok(value: T) | Err(error: ApiError)

  /** One constructor per distinct error response of the handlers. */
  datatype ApiError =
    | MissingField          // a required body field is absent or falsy
    | AlreadyExists         // register: nickname or secret code already used
    | SongAlreadyInPlaylist // add-song: the id is already in the playlist
    | InvalidSecretCode     // login: no user has that secret code
    | WrongRoomPassword     // join: the room has a password and it differs
    | UserNotFound
    | PlaylistNotFound      // no playlist with that id owned by the caller
    | SongNotFound
    | SongNotInPlaylist
    | RoomNotFound
    | ServerError           // an exception caught by a handler's own catch block
  {
    /** The HTTP status code sent with this error. */
    function Status(): int {
      match this
      case MissingField | AlreadyExists | SongAlreadyInPlaylist => 400
      case InvalidSecretCode => 401
      case WrongRoomPassword => 403
      case UserNotFound | PlaylistNotFound | SongNotFound | SongNotInPlaylist | RoomNotFound => 404
      case ServerError => 500
    }
  }
}
