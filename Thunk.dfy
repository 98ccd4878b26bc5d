/** The three actions an asynchronous thunk dispatches. */
module Thunk {
  /** `pending`, `fulfilled` with the returned payload, or `rejected` with the message given to `rejectWithValue`. */
  datatype Phase<T> = Pending | Fulfilled(payload: T) | Rejected(message: string)
}
