/** The tunable limits of the agent, with the values the repository ships. */
module Config {

  datatype Config = Config(
    maxPageTextChars: nat,       // body text kept in an observation
    maxElements: nat,            // clickable records per observation
    maxSteps: nat,               // iterations of the control loop
    maxInputElements: nat,       // raw inputs scanned per observation
    confirmWords: seq<string>)   // substrings that make a tool name sensitive

  /** config.py: 4000 characters, 200 clickables, 25 steps, 30 inputs, six sensitive words. */
  const Shipped := Config(4000, 200, 25, 30, ["pay", "order", "delete", "оплат", "заказ", "удал"])

  /** The conversation memory the agent creates keeps this many steps. */
  const MemorySteps := 10
}
