# Peer protocol constants of SubliminalCollaborator

SubliminalCollaborator lets two Sublime Text users edit one document over a
direct peer-to-peer connection. Its protocol definition (`libs/peer/interface.py`)
fixes the vocabulary both peers share:

- the handshake marker `MAGIC_NUMBER`;
- the endpoint names `client`/`server` and the role names `partner`/`host`;
- the five connection-state names;
- the thirteen message-type codes `CONNECTED` (0) to `EDIT` (12);
- the sub-type sentinel `EDIT_TYPE_NA` (120);
- the `symbolic_to_numeric` table from names to codes;
- the `numeric_to_symbolic` table, derived from it when the module loads.

The model has three modules:

- `Wrappers`: `Option`, for lookups that may find nothing.
- `MapInversion`: the loop that derives one dictionary from the other.
  - `Invert` starts from an empty map. It visits the keys in an unspecified
    order, as a Python 2 dictionary's `items()` does, and writes `inv[m[k]] := k`.
  - Its postcondition holds for every visiting order. So when the forward table
    is injective, the result does not depend on that order.
  - `IsInverse` says two maps undo each other in both directions. The lemmas
    prove that an inverse exists only for an injective map, that being inverses
    is symmetric, that the inverse is unique, and that it has as many entries
    as the map it inverts.
- `PeerInterface`: the constants, with a datatype for each enumeration.
  - `Endpoint`, `Role` and `ConnectionState` each have a naming function.
    Their names are proved pairwise distinct.
  - `MessageType` and `SubType` have code functions. `TypeOf` and `SymbolOf`
    decode a code and return `None` for a code no entry uses.
  - `SYMBOLIC_TO_NUMERIC` is the table literal. `BuildNumericToSymbolic` is the
    module-level inversion applied to it.

## Model

| member | source | states |
|---|---|---|
| `MapInversion.Invert` | libs/peer/interface.py:91-93 | every value of the table becomes a key of the result and maps back to a key carrying that value; for an injective table the result is its inverse with as many entries, whatever order the items are visited in |
| `MapInversion.VisitStep` | libs/peer/interface.py:92-93 | after any set of items has been processed, the partial result maps exactly the processed values back to keys that carry them (to the processed key itself when the table is injective), and one more assignment keeps this so |
| `MapInversion.InverseOnlyIfInjective` | libs/peer/interface.py:91-93 | a table with two names sharing one code has no inverse: inverting is lossless only when the codes are distinct |
| `MapInversion.InverseIsMutual` | libs/peer/interface.py:91-93 | if the derived table inverts the forward one then the forward one inverts the derived one (both round trips hold) |
| `MapInversion.InverseUnique` | libs/peer/interface.py:92-93 | two inverses of the same table are equal, so the derived table is independent of iteration order |
| `MapInversion.InverseSize` | libs/peer/interface.py:91-93 | an inverse has exactly as many entries as the table it inverts |
| `PeerInterface.EndpointNamesDistinct` | libs/peer/interface.py:28-29 | the `client` and `server` names are distinct: equal names iff equal endpoints |
| `PeerInterface.RoleNamesDistinct` | libs/peer/interface.py:30-31 | the `partner` and `host` role names are distinct: equal names iff equal roles |
| `PeerInterface.StateNamed` | libs/peer/interface.py:33-38 | a string decodes to a state exactly when it is that state's name; no state has the name of a string that decodes to nothing |
| `PeerInterface.StateNameRoundTrip` | libs/peer/interface.py:33-38 | decoding a state's name gives back that state |
| `PeerInterface.StateNamesDistinct` | libs/peer/interface.py:33-38 | the five connection-state names are pairwise distinct |
| `PeerInterface.TypeCode` | libs/peer/interface.py:42-67 | every message-type code lies in the range `CONNECTED`..`EDIT`, 0..12 |
| `PeerInterface.TypeOf` | libs/peer/interface.py:42-67 | a code names a message type iff it lies in 0..12, and then the type's code is that code |
| `PeerInterface.TypeCodeRoundTrip` | libs/peer/interface.py:42-67 | decoding a type's code gives back the type, so no two types share a code |
| `PeerInterface.SubTypeCode` | libs/peer/interface.py:69-71 | the sub-type sentinel's code (120) is no message type's code, so the two never collide in the shared table |
| `PeerInterface.SymbolOf` | libs/peer/interface.py:73-88 | a code decodes to an entry whose code it is; a code that decodes to nothing belongs to no entry |
| `PeerInterface.SymbolCodeRoundTrip` | libs/peer/interface.py:73-88 | decoding an entry's code gives back the entry |
| `PeerInterface.TableCodes` | libs/peer/interface.py:74-87 | the codes in use are exactly 0..12 and 120, fourteen in all |
| `PeerInterface.TableMatchesSymbols` | libs/peer/interface.py:44-88 | each named constant equals its entry in `symbolic_to_numeric`; every name in the table belongs to the entry its code decodes to |
| `PeerInterface.TableInjective` | libs/peer/interface.py:74-87 | the fourteen codes of `symbolic_to_numeric` are pairwise distinct |
| `PeerInterface.TableValues` | libs/peer/interface.py:74-87 | the set of codes in `symbolic_to_numeric` is exactly {0,...,12} together with 120 |
| `PeerInterface.BuildNumericToSymbolic` | libs/peer/interface.py:90-93 | the derived `numeric_to_symbolic` and `symbolic_to_numeric` are mutual inverses; it has exactly the keys 0..12 and 120, fourteen entries, and maps each code to the name of its entry |

## Left out

- The `Peer` interface (libs/peer/interface.py:97-198): every method is an abstract declaration with no body. Their networking and editor arguments are foreign types.
- Connection-state transitions, message framing, the wire format, chunked view transfer and the byte-count check behind `BAD_VIEW_SEND`: only their constant names exist in the source file, so they are not modelled.
- The EDIT sub-types other than `EDIT_TYPE_NA`: the source leaves them open. `SubType` has the sentinel as its only value.
- `MAGIC_NUMBER` is modelled as a constant only. Nothing in the file compares or exchanges it.
- The `zope.interface` import and the module-level execution of the inversion: `BuildNumericToSymbolic` stands for the code that runs once when the module loads.
