/** The JSON bodies the front end posts, as values. */
module Payloads {
  import opened LineItems

  /** ClientInput of src/types/index.ts. */
  datatype ClientInput = ClientInput(name: string, email: string)

  datatype Body =
    | NoBody
      /** POST /login */
    | Credentials(email: string, password: string)
      /** POST /orders from the new-order page: `{ client, items }` */
    | OrderWithClient(client: ClientInput, items: seq<LineItem<string>>)
      /** POST /orders from the client-order page: `{ client_id, items }` */
    | OrderForClient(clientId: int, pricedItems: seq<LineItem<int>>)
      /** POST /orders from the create-order page, product ids converted */
    | OrderPayload(clientId: int, numberedItems: seq<LineItem<real>>)
}
