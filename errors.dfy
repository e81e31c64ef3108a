/**
 * The errors that the repository, the service and the worker hand to their
 * callers. Driver errors are named after the condition that raises them;
 * `Wrapped` is `fmt.Errorf("<context>: %w", cause)`.
 */
module Errors {

  datatype Error =
    | InvalidHex                              // primitive.ObjectIDFromHex on a malformed id
    | DuplicateKey                            // InsertOne with an _id already stored
    | NegativeSkip                            // the server rejects a find with a negative skip
    | PublishFailed                           // the Kafka writer could not deliver a message
    | Validation(field: string, message: string)  // services.ValidationError
    | JobNotFound                             // services.ErrJobNotFound
    | NotImplemented                          // errors.New("not implemented")
    | Wrapped(context: string, cause: Error)
}
