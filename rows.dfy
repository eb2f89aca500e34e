/** The rows of the four MySQL tables the routes read and write, and the
    shape of an HTTP reply. Balances and amounts are integers in cents; ids are
    the tables' AUTO_INCREMENT primary keys. */
module Rows {

  type Id = nat

  datatype Option<+T> = None | Some(value: T)

  /** A row of `users`. `password` holds the bcrypt hash, never the password itself. */
  datatype User = User(id: Id, email: string, password: string, fullName: string)

  /** A row of `accounts`. */
  datatype Account = Account(id: Id, userId: Id, accountNumber: string, balance: int)

  /** A row of `transactions`; `kind` is the `type` column, always "transfer" here. */
  datatype Transaction = Transaction(id: Id, senderAccountId: Id, recipientAccountId: Id, amount: int, kind: string)

  /** A row of `payments`. A row inserted without a status carries the column's
      default, which the schema decides and this model does not know: `None`. */
  datatype Payment = Payment(id: Id, userId: Id, paymentType: string, referenceNumber: string,
                             amount: int, status: Option<string>)

  /** A signed JWT whose payload is `{ userId }`; signing and expiry are not modelled. */
  datatype Token = Token(userId: Id)

  /** The body of a successful register or login: the token and the user id. */
  datatype Session = Session(token: Token, userId: Id)

  /** An HTTP reply: a success status with its JSON body, or an error status
      with the `message` of its JSON body. */
  datatype Result<T> = Ok(status: int, value: T) | Err(status: int, message: string)

  // Primary keys, for the generic queries of module Query.
  function TransactionKey(t: Transaction): Id { t.id }
  function PaymentKey(p: Payment): Id { p.id }
}
