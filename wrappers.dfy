/** Failure values shared by the tokenizer model. Every panic, failed
    assertion or raised exception of the source becomes one of these. */
module Wrappers {

  datatype Option<+T> = None | Some(value: T)

  /** Why an operation of the tokenizer did not complete. */
  datatype Error =
    | VocabSizeTooSmall     // `assert!(vocab_size >= 256)` / `assert vocab_size >= 256`
    | NoPairs               // `max_by_key(..).unwrap()` / `max()` over empty stats
    | MissingId(id: int)    // `vocab[&id]` index panic / `KeyError`
    | MissingLine           // `lines.next().unwrap()` on an exhausted file
    | BadVersion            // version line is not `minbpe v1`
    | MissingField          // `parts[k]` index panic on a short line
    | BadInt                // `parse::<i32>().unwrap()` on a malformed number

  datatype Result<+T> = Ok(value: T) | Err(error: Error)
}
