/** How a turn ends (`packages/ai/src/stream.ts`). */
module Outcomes {
  datatype Outcome = Answer(text: string) | Held(message: string) | Stopped(why: string)
}
